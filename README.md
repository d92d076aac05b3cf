# Recommendation-instruction data preparation, modelled in Dafny

This project models the two preparation stages of a pipeline that turns Yelp-style reviews
into instruction-tuning rows for a recommender language model.

**Pre-data preparation** (`PreDataPreparation`):
- keeps the reviews inside a date window with a positive rating;
- turns each date into a numeric time key;
- groups the review tuples by user and sorts each history by time;
- filters the graph to its k-core: every user who still has interactions has at least five, and
  every visited item has at least five visits; a user emptied by the item filter stays, with no
  interactions;
- numbers users and items (`user_<n>`, `item_<n>`);
- projects everything into one record per user, with list columns of equal length.

**Data preparation** (`DataPreparation`) runs five generator families, in a fixed order, over
every user record:
- rating
- sequential recommendation
- explanation
- review
- traditional (yes/no and candidate-list)

Each generator flattens the user record with `flatten_dict`. It then samples task keys from the
family's template catalog and formats one `[task_desc, inp_text, out_text, metric]` row per
sampled key. Four of the five generators catch any exception inside their loop. They then count
it and keep the rows made so far. The driver concatenates the families' rows.

Randomness is injected:
- the `Draws` datatype carries every draw as a total function of the record index and the task
  position;
- `KeySamples` and `IsSample` state what `random.sample` guarantees, where a property needs it;
- `random.gauss` is an integer score that the model clamps to [0, 100] and compares the way the
  source does.

Templates are opaque partial functions from a dict to a string: formatting fails (KeyError)
when a placeholder is missing.

Files:
- `common.dfy`: exceptions, `Option`/`Result`, decimal strings, string order, occurrence counts, `Dedup`, subsequences.
- `flatten.dfy`: `flatten_dict`.
- `interactions.dfy`: review tuples, the keep-filter, the time key and the tuple built from a review line, the stable sort, grouping.
- `kcore.dfy`: the k-core check, one pruning pass, the fixed point.
- `pre_data_preparation.dfy`: the `PreDataPreparation` class (imperative loops proved against the functions above), the mappings, the projection.
- `generators.dfy`: shared generator machinery: the task fold `RunTasks` over one record's sampled keys and the record fold `RunRecords`, with their shape lemmas.
- `rating.dfy`, `traditional.dfy`, `reviews.dfy` (review and explanation), `sequential.dfy`: each family as a function, with its rules and outcome lemmas.
- `data_preparation.dfy`: the `DataPreparation` class. Its methods loop over records and keys and thread each record's dict through the tasks as a map value, each task returning the updated dict. Each is proved equal to its family's function. The driver is proved equal to `CorpusUpTo`, and the error counters are proved to count the caught records.

Two behaviours of the code worth knowing:
- k-core counts include repeated visits to the same item;
- a generator that catches an exception returns the rows it made before the exception.

## Model

| member | source | states |
|---|---|---|
| Utils.FlattenDict | src/utils.py:15-22 | StopIteration when no field is a list. Otherwise: one record per index of the first list field; record i holds every scalar field and element i of every list field; IndexError exactly when some list field is shorter than the first. |
| Utils.FirstListLengthIsFirst | src/utils.py:20 | The length used is that of the first list-valued field in key order; None exactly when every field is a scalar. |
| Interactions.KeepIsWindow | src/pre_data_preparation.py:83-84 | A review is kept exactly when `min_date <= date <= max_date` in string order and its rating is positive. |
| Interactions.TimeKeyStrips | src/pre_data_preparation.py:85 | The three chained replacements equal removing every '-', ':' and ' ' in one pass. |
| Interactions.MakeReview | src/pre_data_preparation.py:85-94 | The tuple of a kept line carries its date's non-separator characters read as a decimal number as its time; `int(time)` raises ValueError exactly when those characters are empty or not all digits. |
| Interactions.StripSeparatorsProperties | src/pre_data_preparation.py:85 | The time key has no separator left, is a subsequence of the date, and keeps every other character with its multiplicity. |
| Interactions.SortByTimeProperties | src/pre_data_preparation.py:65-66 | `sorted(key=time)` yields a time-sorted permutation that is stable: tuples with equal time keep their input order. |
| Interactions.GroupProperties | src/pre_data_preparation.py:61-64 | Grouping keeps each user once in order of first appearance, gives each user exactly its tuples in input order, and loses no tuple. |
| KCore.CountMapOcc | src/pre_data_preparation.py:100-106 | A `defaultdict(int)` count has exactly the seen elements as keys, each mapped to its number of occurrences. |
| KCore.UserCountsMembers | src/pre_data_preparation.py:102-105 | `user_count` has a key exactly for the users with at least one interaction, each mapped to its history length. |
| KCore.IsKcoreByCounts | src/pre_data_preparation.py:107-113 | The verdict read from the two count maps is the k-core property of the graph. |
| KCore.PruneProgress | src/pre_data_preparation.py:118-129 | When the check fails for the floors the pass uses, one pass strictly lowers the number of interactions, so the loop terminates. |
| KCore.PruneEntriesSub | src/pre_data_preparation.py:119-128 | A pass only removes: no new user, user order kept, each history a subsequence of its old self. |
| KCore.KcoreIsKcore | src/pre_data_preparation.py:116-130 | The fixed point passes the k-core check. |
| KCore.KcoreSubGraph | src/pre_data_preparation.py:116-130 | The fixed point keeps a subsequence of the users and, for each, a subsequence of its history. |
| KCore.KcoreKeepsEmpty | src/pre_data_preparation.py:119-121 | A user with no interactions has no `user_count` entry, is never popped, and stays in the result. |
| KCore.KcoreKeepsOrder | src/pre_data_preparation.py:123-128 | Filtering keeps every history in chronological order. |
| KCore.KcoreIdempotent | src/pre_data_preparation.py:117-118 | A graph that already passes is returned unchanged, and filtering twice equals filtering once. |
| PreData.ForwardAt | src/pre_data_preparation.py:143-146 | In a duplicate-free order, element j gets id `prefix + str(j+1)`. |
| PreData.NumberNext | src/pre_data_preparation.py:150-153 | A new element gets the next id and the counter grows by one; a repeated element changes nothing. |
| PreData.MappingsInverse | src/pre_data_preparation.py:143-153 | For a duplicate-free order, the forward and inverse maps are inverse bijections. |
| PreData.MappingsUsers | src/pre_data_preparation.py:141-146 | The k-th user of the dict gets `user_<k+1>`, and only the dict's users get an id. |
| PreData.MappingsItems | src/pre_data_preparation.py:148-153 | Exactly the visited items get an id, numbered `item_<n>` in order of first visit. |
| PreData.MappingsBijective | src/pre_data_preparation.py:133-162 | `id2user` inverts `user2id` and `id2item` inverts `item2id`. |
| PreData.BuildRecords | src/pre_data_preparation.py:183-195 | One record per user in key order, or KeyError exactly when a subscript lookup fails. Every list column is as long as the history, and position j of each column comes from interaction j. |
| PreData.OwnMappingsLookups | src/pre_data_preparation.py:192-195 | With the graph's own mappings, the projection fails only when a user or an item is missing from the description files. |
| PreData.OwnMappingsUserIds | src/pre_data_preparation.py:192 | With the graph's own mappings, the k-th record carries `user_<k+1>`. |
| PreData.TotalSameLengths | src/pre_data_preparation.py:204-208 | Columns of equal per-user lengths hold the same total number of entries. |
| PreData.PreDataPreparation.constructor | src/pre_data_preparation.py:12-23 | The date window, the user and item floors of 5, and the negative sample size of 50. |
| PreData.PreDataPreparation.ReviewTuple | src/pre_data_preparation.py:83-94 | A line yields nothing exactly when its date lies outside [`min_date`, `max_date`] in string order or its rating is not positive; otherwise it yields the tuple with the numeric time key. |
| PreData.PreDataPreparation.ReviewDataRules | src/pre_data_preparation.py:76-96 | Reading succeeds exactly when no kept line has a time key `int` rejects, the failure is always ValueError, and every tuple returned comes from a kept line. |
| PreData.PreDataPreparation.GetReviewData | src/pre_data_preparation.py:76-96 | The line loop of `_get_review_data` equals the fold `ReviewData`: kept tuples in line order, or the first ValueError. |
| PreData.PreDataPreparation.GetUserItemInteractions | src/pre_data_preparation.py:60-67 | The dict has unique users in order of first review. Each history is the user's tuples, sorted by time and a permutation of them. No tuple is lost. |
| PreData.PreDataPreparation.CountHistory | src/pre_data_preparation.py:103-106 | One user's counting loop: the user's count becomes its history length, and each visit bumps its item's count and key order. |
| PreData.PreDataPreparation.CountInteractions | src/pre_data_preparation.py:100-106 | The counting loop yields `user_count`, `item_count` and the key order of `item_count`. |
| PreData.PreDataPreparation.CheckKcore | src/pre_data_preparation.py:99-113 | Returns the two count maps and a verdict equal to the k-core property with the configured floors. |
| PreData.ReachesCore | src/pre_data_preparation.py:107-112 | The scan over a count map answers true exactly when every counted key reaches the floor; it stops at the first key below it. |
| PreData.PreDataPreparation.KeepFrequentItems | src/pre_data_preparation.py:123-127 | The `updated_item_lst` loop keeps, in order, exactly the interactions whose item is visited at least the item floor times in the current graph. |
| PreData.PreDataPreparation.PrunePass | src/pre_data_preparation.py:119-128 | One pass of the `while` body equals the pruning function on the current counts. |
| PreData.PreDataPreparation.FilterKcore | src/pre_data_preparation.py:116-130 | The loop terminates. Its result is the k-core fixed point with the configured floors, passes the check, and only removes users and interactions. |
| PreData.PreDataPreparation.NumberItems | src/pre_data_preparation.py:148-154 | One history's numbering loop extends the item maps and the counter exactly by the newly seen items. |
| PreData.PreDataPreparation.GetMappings | src/pre_data_preparation.py:133-162 | The four maps equal `Mappings`: users numbered in key order, items in order of first visit. |
| PreData.AsWrittenStalls | src/pre_data_preparation.py:116-130 | As written, with `user_core = item_core = 6`, a graph fails the check but the pass (literal 5) returns it unchanged, so the loop never ends. |
| Generators.Clamp | src/data_preparation.py:79 | `max(0, min(100, g))` lies in [0, 100] and is g when g already does. |
| Generators.CandidateList | src/data_preparation.py:91-95 | For a valid sample, the candidate list has 51 distinct ids with the target once, at the drawn position; every other id is an `id2item` key the user never visited. |
| Generators.TasksShape | src/data_preparation.py:77-101 | For a family whose tasks each emit one row or raise, a record's rows follow its sampled keys, one per key, and the record is complete exactly when nothing was raised. |
| Generators.RecordsShape | src/data_preparation.py:75-106 | The rows of all records follow the planned keys in order. The run ends without an exception exactly when every planned row was made. |
| Generators.PlannedCount | src/data_preparation.py:75-77 | With k sampled keys per record, k rows are planned per record that is not skipped. |
| Generators.RecordsSmallCatalog | src/data_preparation.py:76 | With fewer than k templates, the first record that is not skipped raises ValueError in `random.sample`, after the earlier records' rows. |
| Rating.RatingChoicesBelow | src/data_preparation.py:243 | The replacement ratings are exactly the values 0..4 other than the current rating. |
| Rating.RatingEmitsOne | src/data_preparation.py:235-249 | Each rating task appends exactly one row labelled `rating_` + key with the key's metric, or raises. |
| Rating.RatingTaskRules | src/data_preparation.py:236-249 | Keys 0-10 answer with the output template. Keys 11-14 answer "yes" above 50, otherwise rewrite the rating to a different value in 0..4 and answer "no". Keys 15-18 answer like/dislike by rating >= 4. Other keys keep the previous `out_text`. The input is formatted on the updated record. |
| Rating.RatingRewriteCarriesOver | src/data_preparation.py:243-246 | A rating rewritten by a "no" task stays in the record, so a later like/dislike task of the same interaction judges the rewritten rating. |
| Rating.RatingFlatten | src/data_preparation.py:220-227 | One rating record per interaction carrying its item id and rating, or IndexError when a later column is shorter. |
| Rating.RatingOutcomeShape | src/data_preparation.py:219-251 | Never caught. A small catalog raises. Otherwise two rows per interaction, row 2u+t labelled by sampled key t of interaction u. |
| Traditional.TraditionalEmitsOne | src/data_preparation.py:77-101 | Each traditional task appends exactly one row labelled `traditional_` + key, or raises. |
| Traditional.TraditionalYesNoRules | src/data_preparation.py:78-89 | Keys 0-15 with a score >= 50: candidate at an index below `len - 1` of the user's own items, "yes", and IndexError for fewer than two items. Otherwise: the drawn candidate with its `id2item` title and "no", IndexError for an empty pool, and a drawn pool item is never one of the user's items. |
| Traditional.TraditionalListRules | src/data_preparation.py:90-96 | Keys 16 and up: ValueError for fewer than 50 unvisited items. Otherwise the target is the record's own item, and the candidate list is the 50 negatives with the target inserted at the drawn position. |
| Traditional.TraditionalFlatten | src/data_preparation.py:65-71 | One record per interaction carrying its item id, or IndexError when the title column is shorter. |
| Traditional.TraditionalOutcomeShape | src/data_preparation.py:64-106 | Raises exactly when the title column is shorter. A small catalog is caught with no rows. Otherwise at most three rows per interaction, row 3u+t labelled by key t, and caught exactly when fewer than 3n rows. |
| Reviews.FormatTaskRules | src/data_preparation.py:125-128 | A format task leaves the record alone and appends its formatted pair, or raises KeyError when the key or a placeholder is missing. |
| Reviews.FlaggedRun | src/data_preparation.py:119-131 | A skipping family: nothing when every record is skipped; ValueError with a small catalog; otherwise rows follow the keys of the unskipped records, complete exactly when no exception. |
| Reviews.NothingKept | src/data_preparation.py:120-122 | When every record is skipped, the loop draws nothing and appends nothing. |
| Reviews.ReviewFlags | src/data_preparation.py:121 | An interaction is skipped exactly when its review text is empty. |
| Reviews.ReviewFlatten | src/data_preparation.py:110-116 | One record per review carrying it, or IndexError when the rating column is shorter. |
| Reviews.ReviewOutcomeShape | src/data_preparation.py:109-133 | Raises exactly when the rating column is shorter. No non-empty review gives no rows. Otherwise two rows per non-empty review, labelled by its sampled keys, caught exactly when fewer. |
| Reviews.ExplanationFlags | src/data_preparation.py:151 | An interaction is skipped exactly when its explanation or its feature is empty. |
| Reviews.ExplanationFlatten | src/data_preparation.py:137-146 | One record per interaction carrying its explanation and feature, or IndexError when a later column is shorter than the items. |
| Reviews.ExplanationOutcomeShape | src/data_preparation.py:136-163 | Raises exactly on a short column. Otherwise three rows per interaction with both an explanation and a feature, caught exactly when fewer. |
| Sequential.SizeBounds | src/data_preparation.py:184-187 | The size range [⌊0.7n⌋, ⌊0.95n⌋] is non-empty and lies inside [0, n-1] for every non-empty history. |
| Sequential.SizedTaskErrors | src/data_preparation.py:184-192 | A task whose size is at most ⌊0.95n⌋, on a non-empty history with as many titles, raises no IndexError. |
| Sequential.SequentialCaughtErrors | src/data_preparation.py:181-212 | With every drawn size at most ⌊0.95n⌋ (the upper end of `random.randint`), the call on a non-empty history returns the task loop's rows and can only have caught ValueError or KeyError. |
| Sequential.Setup | src/data_preparation.py:189-197 | The history cut at the size, the next item as target with its title, and the serialised candidate list are written to the dict. |
| Sequential.SetupKeeps | src/data_preparation.py:189-197 | Every other entry of the shared dict keeps its value. |
| Sequential.SequentialEmitsOne | src/data_preparation.py:199-210 | Each sequential task appends exactly one row labelled `sequential_` + key, or raises. |
| Sequential.SequentialTaskRules | src/data_preparation.py:184-210 | IndexError for a size past the history. ValueError for a pool under 50. Otherwise the input uses history `ids[..size]` and the true target `ids[size]`. Keys 24-29 answer yes/no by the gate, the others by the output template. |
| Sequential.SetupForgetsTarget | src/data_preparation.py:191-205 | A task rewrites `target_item_id` before reading it, so an earlier task's replacement target is overwritten. |
| Sequential.TasksIgnoreItem | src/data_preparation.py:183-210 | The rows of the task loop do not depend on the drawn replacement targets. |
| Sequential.SequentialIgnoresItem | src/data_preparation.py:200-206 | The call's outcome is the same for any replacement item: the "no" branch's item never reaches a row. |
| Sequential.SequentialOutcomeShape | src/data_preparation.py:166-216 | Raises (ValueError) exactly with fewer than five templates. Otherwise rows follow the five sampled keys, caught exactly when fewer than five; an empty history gives no rows and is caught. |
| DataPrep.GatherOk | src/data_preparation.py:49-51 | Gathering succeeds exactly when no outcome raised. Its rows are the outcomes' rows in order; a failure carries the exception of one that raised. |
| DataPrep.CaughtCountBound | src/data_preparation.py:102-104 | At most one caught exception is counted per record; zero exactly when no record caught one. |
| DataPrep.CorpusOk | src/data_preparation.py:43-51 | The run produces a corpus exactly when no family raised on any record. |
| DataPrep.CorpusErrSticks | src/data_preparation.py:43-50 | Once a family raises, no later family contributes: the run has ended. |
| DataPrep.RatingNeverCaught | src/data_preparation.py:219-251 | The rating family has no `try`, so it never counts an exception. |
| DataPrep.DataPreparation.constructor | src/data_preparation.py:14-22 | All five error counters start at zero. |
| DataPrep.DataPreparation.RatingSubTask | src/data_preparation.py:236-249 | The in-place rating task: its error, its rows and, on success, the new dict and `out_text` equal `RatingTask`. |
| DataPrep.DataPreparation.TraditionalSubTask | src/data_preparation.py:78-101 | The in-place traditional task agrees with `TraditionalTask`. |
| DataPrep.DataPreparation.FormatSubTask | src/data_preparation.py:125-128 | The review or explanation task agrees with `FormatTask`. |
| DataPrep.DataPreparation.SequentialSubTask | src/data_preparation.py:184-210 | The in-place sequential task on the shared dict agrees with `SequentialTask`. |
| DataPrep.DataPreparation.FormatRecords | src/data_preparation.py:119-128 | The skip-and-format record loop gives the rows and the exception that `RunRecords` gives. |
| DataPrep.DataPreparation.RatingRecords | src/data_preparation.py:232-249 | The nested rating loops give the rows and the exception of `RunRecords`. |
| DataPrep.DataPreparation.TraditionalRecords | src/data_preparation.py:75-101 | The nested traditional loops give the rows and the exception of `RunRecords`. |
| DataPrep.DataPreparation.SequentialTasks | src/data_preparation.py:183-210 | The loop over the five keys gives the rows and the exception of `RunTasks`. |
| DataPrep.DataPreparation.RatingDataPreparation | src/data_preparation.py:219-251 | Returns `RatingOutcome`. |
| DataPrep.DataPreparation.TraditionalDataPreparation | src/data_preparation.py:64-106 | Returns `TraditionalOutcome`. Its counter grows by one exactly when an exception was caught; the other counters are unchanged. |
| DataPrep.DataPreparation.ReviewDataPreparation | src/data_preparation.py:109-133 | Returns `ReviewOutcome`. The review counter grows by one exactly when an exception was caught; the others are unchanged. |
| DataPrep.DataPreparation.ExplanationDataPreparation | src/data_preparation.py:136-163 | Returns `ExplanationOutcome`. The explanation counter grows by one exactly when an exception was caught; the others are unchanged. |
| DataPrep.DataPreparation.SequentialDataPreparation | src/data_preparation.py:166-216 | Returns `SequentialOutcome`. The sequential counter grows by one exactly when an exception was caught; the others are unchanged. |
| DataPrep.DataPreparation.RunFamily | src/data_preparation.py:36-47 | Runs generator `fam` of `functions_to_run`. Only that family's counter may grow, and only by a caught exception. |
| DataPrep.DataPreparation.RunFamilyOnAll | src/data_preparation.py:46-51 | One executor block: the family's gathered result over all records, and its counter grown by the number of records that caught an exception. |
| DataPrep.DataPreparation.DataPreparationRun | src/data_preparation.py:28-53 | The corpus is `CorpusUpTo(5)`: the families in order, each over all records, stopping at the first family that raises. The rating counter never moves. On success, each counter has grown by its family's caught records. |

## Left out

- File and JSON I/O, pickles, pandas data frames, `train_test_split` and the JSON written at the end: the model starts from the parsed review lines (`ReviewLine`) and the user records as values, and stops at the concatenated rows.
- Reading the user and business files (`_get_user_data`, `_get_item_data`) and `_get_review_with_features`: they are given as maps from id to description. The random choice of a feature sentence is not modelled: each tuple carries its feature and explanation.
- `_get_mappings` and `pre_data_preparation` do not check that the filtered graph's users have descriptions. `BuildRecords` models that lookup as a KeyError result.
- `id2item` comes from `data_maps.json` in the source. Here it is a constructor parameter of `DataPreparation`.
- Threads: `ThreadPoolExecutor` and `as_completed` deliver results in completion order. The model gathers them in record order and raises the exception of the first failing record in that order. Every record still runs, so every caught exception is counted, as in the source.
- The counters are incremented by concurrent threads without a lock. The model increments them one record at a time, so lost updates are not modelled.
- `random.gauss` is a float. The model injects an integer score; on fractional scores, only the comparisons with 50 are captured.
- `random.sample`, `random.choice` and `random.randint` are injected draws. Their guarantees are preconditions of the lemmas that need them (`KeySamples`, `IsSample`).
- Sequential.SizeBounds: `int(0.7 * n)` and `int(0.95 * n)` are computed in binary floating point in the source. For some n (90, 170, 180, 330, …) the first is one less than ⌊7n/10⌋, and `SizeBounds` takes exact fractions. Both constants are stored slightly below their decimal values, so for every n below 10^14 the source's upper end is never above ⌊19n/20⌋. `SizeSamples` bounds the draw by that upper end only, so `SizedTaskErrors` and `SequentialCaughtErrors` cover the source's range.
- `int(time)` also accepts underscores between digits, non-ASCII decimal digits, and surrounding whitespace other than spaces (a trailing `\n` or tab, for instance), which it strips. `MakeReview` raises ValueError on those time keys, and accepts only ASCII decimal digits.
- `_filter_kcore` pops users and reassigns histories in the caller's dict in place. `FilterKcore` returns a new graph instead. The only caller reassigns the variable to the result (src/pre_data_preparation.py:172), so no aliasing is involved.
- `int(sub_task_key)` also accepts signs, surrounding blanks and underscores. The model parses plain decimal digits only, which is the form the catalog keys take.
- Ratings are integers. The Yelp `stars` field is a float in the source, and the comparisons `<= 0.0` and `>= 4` are made on the integer.
- Templates are opaque: formatting either yields a string or raises KeyError. `str.format` syntax and conversions are not modelled.
- The `negative_sampling_size` attribute and the commented-out negative-list column are unused in the source and are not modelled beyond the constructor.
- Partial writes on failure: when a task raises after assigning some entries of `sub_dct`, the source keeps those entries. The model's `Fail` keeps the dict as it was before the task. No later task of that record runs, and nothing else reads the dict, so this does not change the rows. The in-place methods state the new dict only on success.
- `print` calls, `tqdm` progress bars and the timing lines.

## Findings

| source | as written | input that shows it | evidently intended | confidence | as-written member | corrected member |
|---|---|---|---|---|---|---|
| src/pre_data_preparation.py:120, 126 | `_filter_kcore` prunes users and items below the literal `5`, while `_check_kcore` tests `self.user_core` and `self.item_core` | `user_core = item_core = 6` and one user who visited one item five times: the check fails, the pass removes nothing, and `while not iskcore` loops forever | prune with `self.user_core` and `self.item_core`, so that every failing pass makes progress | not executed | PreData.AsWrittenStalls | PreData.PreDataPreparation.FilterKcore |

One more behaviour of the sequential generator is modelled as written and proved, rather than
listed as a finding:
- The input text of a "no" task is formatted before the replacement target is drawn.
- The next task overwrites that target before reading it.
- So the replacement never appears in any row (`Sequential.SequentialIgnoresItem`).
- The "no" rows therefore pair an input naming the true next item with the answer "no".
