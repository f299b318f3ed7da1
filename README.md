# Bank-marketing pipeline: cleaning, batched import, cluster-count selection

This project models the logic of three scripts that prepare bank-marketing data
and segment its customers:

- **Cleaner** (`step1_clean_data.py`). It keeps the five columns age, balance,
  housing, loan and campaign. It maps housing and loan from the exact strings
  `yes`/`no` to 1/0, drops every row with a missing value, and keeps the
  surviving rows in their input order. It is modelled as pure functions over
  `seq<RawRecord>`.
- **Importer** (`import_to_database.py`). It reads and normalises the CSV rows
  leniently right after loading them (lines 32-40): an unknown or missing flag
  becomes 0 and a missing number becomes 0. It then applies the table-exists
  policy (lines 101-116): an absent table is created, and an existing one is
  recreated empty on a `yes` answer and otherwise kept so that new rows are
  appended. It then builds one tuple per row (lines 134-142) and inserts the
  tuples in consecutive batches of 500, each committed on its own; on an error
  the open batch is rolled back. `Importer.CustomerTable.Run` calls `Prepare`
  before `BuildTuples`; since normalisation cannot fail, the order of the two
  does not change the result. The database table is the class `Importer.CustomerTable`. It holds the committed
  rows (`rows`), the rows of the open transaction (`pending`) and whether the
  table exists (`present`). Its methods `InsertBatch`, `Commit`, `Rollback`,
  `Prepare` and the loop `ImportTuples` change that state in place. The yes/no
  mapping is a parameter of type `Importer.Mapping`: `AsWritten` is the mapping
  of lines 32-33, which the script runs, and `Corrected` is the repair
  described under Findings. `Run(AsWritten, ...)` is the script.
- **Segmenter selection logic** (`step2.py`). This covers the K range
  2..MAX_CLUSTERS (10), the inertia list built in a loop, the elbow estimate
  `argmax(second_diff) + 2` offered as the default, and the parsing of the
  operator's choice. It also covers the per-cluster counts, the per-cluster
  subsets, and the output sorted by id. The K-means fits are inputs: the
  inertia of a fit for K is a function parameter, and the labels are a
  sequence. The corrected elbow of Findings is modelled beside the one the
  script computes.

The module `Pipeline` connects the Cleaner's output to the Importer's input.
`Records` and `Text` hold shared types and the ASCII parts of Python's
`strip`, `lower`, `isdigit` and `int`.

Facts about the code that the model keeps:

- The batch size is 500.
- The table-exists policy has two outcomes only: `yes` (after strip and
  lower) recreates the table, and any other answer appends to it.
- With the mapping as written, the importer stores 0 for both flags of every
  row of the cleaned file (see Findings).
- The elbow offered as the default is `argmax(second_diff) + 2` (see Findings).

Cleaning is a function of its input, so two runs over the same input give the
same rows.

## Model

| member | source | states |
|---|---|---|
| Cleaner.YesNo | step1_clean_data.py:9-10 | "yes" gives 1, "no" gives 0, and any other value gives missing: another case, other text, or an empty cell |
| Cleaner.CleanRow | step1_clean_data.py:8-16 | a row survives exactly when all five fields are present and both flags are "yes"/"no"; age, balance and campaign pass through unchanged; flags are 0/1 with 1 exactly for "yes" |
| Cleaner.Clean | step1_clean_data.py:8-16 | the output has no more rows than the input, and every output row has housing and loan in {0,1} |
| Cleaner.CleanOne | step1_clean_data.py:8-16 | a single row cleans to its cleaned record when every field is present, and to nothing otherwise |
| Cleaner.CleanAppend | step1_clean_data.py:11 | cleaning judges rows one at a time: cleaning two blocks of rows one after the other gives the two cleaned blocks in the same order |
| Cleaner.KeptInPlace | step1_clean_data.py:11 | a row keeps its place: the rows before it clean to what comes before its cleaned record, and the rows after it to what follows; an incomplete row leaves no trace |
| Cleaner.CaseVariantDropsRow | step1_clean_data.py:9-11 | a row whose flag reads "Yes" or "NO" is dropped |
| Text.Strip | import_to_database.py:106 | the result is a contiguous slice of the input, whitespace only is removed on both sides, and the result neither starts nor ends with whitespace |
| Text.Lower | import_to_database.py:106 | same length; each character is lowered on its own |
| Text.IsDigits | step2.py:136 | true only for a non-empty digit string, which has no whitespace at either end |
| Text.DigitsValue | step2.py:136 | int() of a digit string of length n is a natural number below 10^n |
| Text.DecimalRoundTrip | step2.py:136 | int(str(n)) == n for every natural number n |
| Importer.CategoricalAsWritten | import_to_database.py:32-33 | the result is always 0 or 1, and it is 1 exactly for the text "yes"; "no", other text, numbers and empty cells give 0 |
| Importer.Categorical | import_to_database.py:32-33 | corrected mapping: always 0 or 1, and 1 exactly for "yes" or an already-coded 1 |
| Importer.FlagRoundTrip | import_to_database.py:32-33 | a 1/0 flag read back from the cleaned file keeps its value under the corrected mapping and becomes 0 under the mapping as written |
| Importer.Flag | import_to_database.py:32-33 | under either mapping a flag is 0 or 1; it is 1 exactly for the text "yes", or, under the corrected mapping only, for an already-coded 1 |
| Importer.NormalizeRow | import_to_database.py:32-40 | a missing age, balance or campaign becomes 0, 0.0 or 0; present values are kept; each flag is 1 exactly for "yes" (or a coded 1 under the corrected mapping) and 0 otherwise |
| Importer.MappingsDifferOnlyInFlags | import_to_database.py:32-40 | the two mappings give the same row apart from the flags, and the mapping as written never gives a larger flag |
| Importer.NormalizeRows | import_to_database.py:134-142 | no row is dropped: row i of the result is the normalised row i of the frame |
| Importer.BuildTuples | import_to_database.py:134-142 | data_tuples is the frame normalised row for row, in file order, with flags in {0,1} |
| Importer.Batches | import_to_database.py:153-154 | there are ceil(N/500) batches; each is non-empty with at most 500 rows, and every batch but the last has exactly 500 |
| Importer.BatchAt | import_to_database.py:153-154 | batch b is exactly data[500b : min(500b+500, N)] |
| Importer.BatchesPrefix | import_to_database.py:153-158 | the first k batches joined are the first min(500k, N) rows |
| Importer.BatchesCoverData | import_to_database.py:153-154 | all batches joined are exactly data_tuples |
| Importer.FailedImportKeepsEarlierBatches | import_to_database.py:153-165 | when batch k exists, the rows committed before it are exactly batches 0..k-1 joined |
| Importer.WantsRecreate | import_to_database.py:106-107 | only an answer of three characters once stripped asks for a recreate |
| Importer.RecreateAnswers | import_to_database.py:106-107 | the table is recreated exactly when the stripped answer is y/e/s in any mix of case |
| Importer.CustomerTable.constructor | import_to_database.py:101-102 | a table that exists or not; an absent table has no rows; nothing pending |
| Importer.CustomerTable.Recreate | import_to_database.py:108-110 | after DROP and CREATE the table exists and is empty |
| Importer.CustomerTable.Prepare | import_to_database.py:101-116 | an absent table is created empty; an existing one is emptied exactly on a "yes" answer, and otherwise its rows are kept for appending |
| Importer.CustomerTable.InsertBatch | import_to_database.py:155 | the batch is added to the open transaction; on an injected error only the rows the server took are pending, and committed rows are unchanged |
| Importer.CustomerTable.Commit | import_to_database.py:156 | the pending rows are appended to the committed rows, and nothing stays pending |
| Importer.CustomerTable.Rollback | import_to_database.py:165 | the pending rows are discarded, and committed rows are unchanged |
| Importer.CustomerTable.ImportTuples | import_to_database.py:144-170 | on success inserted_count = N and the table is its old rows followed by data_tuples; if batch k fails, inserted_count = 500k and the table is its old rows followed by exactly the first 500k rows, with none of batch k's rows |
| Importer.CustomerTable.Run | import_to_database.py:101-170 | the import end to end: the table holds the kept old rows (none when created or recreated) followed by the first `inserted` rows of the frame normalised with the given mapping; `inserted` is N on success and 500k when batch k fails |
| Segmenter.KRange | step2.py:97 | K runs over 2..MAX_CLUSTERS in increasing order, giving MAX_CLUSTERS-1 values |
| Segmenter.CollectInertias | step2.py:96-104 | inertias has one entry per K in the range, in increasing K order, and entry j is the fit's inertia for K = j+2 |
| Segmenter.Diff | step2.py:118 | one element shorter than its input; element j is s[j+1]-s[j] |
| Segmenter.SecondDiff | step2.py:118-119 | length N-2, and second_diff[j] = inertias[j+2] - 2 inertias[j+1] + inertias[j] |
| Segmenter.ArgMax | step2.py:120 | an index of the largest value, and before it every value is strictly smaller (the first maximum) |
| Segmenter.ElbowAsWritten | step2.py:118-120 | no result for fewer than 3 inertias (argmax of an empty array raises); otherwise 2 + the first index of the largest second difference, within 2..N-1 |
| Segmenter.Elbow | step2.py:118-120 | corrected elbow: within 3..N, it is the first K at which the curvature of the inertia curve is largest |
| Segmenter.ElbowAsWrittenOffByOne | step2.py:120 | the value as written is always one less than the K of largest curvature |
| Segmenter.ElbowAsWrittenMissesKnee | step2.py:120 | for inertias 100, 50, 40, 35, 32 the code gives K = 2, while the knee is at K = 3 |
| Segmenter.ElbowInRange | step2.py:97-120 | with MAX_CLUSTERS >= 4 an elbow exists, in 2..MAX_CLUSTERS-2 as written and in 3..MAX_CLUSTERS-1 corrected |
| Segmenter.ScriptElbowInRange | step2.py:97-120 | with the script's MAX_CLUSTERS = 10 the elbow as written lies in 2..8 and the corrected one in 3..9 |
| Segmenter.ChooseK | step2.py:135-136 | an answer that is all digits once stripped gives int() of those digits, leading zeros included and with no range check; any other answer keeps the default |
| Segmenter.ChooseKReadsNumber | step2.py:135-136 | a typed number, with any whitespace around it, becomes optimal_k as typed, without a range check |
| Segmenter.ChooseKBlankKeepsDefault | step2.py:135-136 | an empty or blank answer keeps the elbow estimate |
| Segmenter.ChooseKRejectsNonDigit | step2.py:135-136 | a stripped answer with any character other than a digit keeps the elbow estimate |
| Segmenter.ChooseKRejectsSign | step2.py:136 | a negative number such as "-3" keeps the elbow estimate |
| Segmenter.SelectK | step2.py:118-136 | no choice when the elbow cannot be computed (fewer than 3 inertias); otherwise the typed digits, or elbow_point = argmax(second_diff) + 2 when the answer is not all digits |
| Segmenter.SelectKDefaultBelowKnee | step2.py:120-136 | accepting the offered default gives one cluster fewer than the K of largest curvature |
| Segmenter.AttachClusters | step2.py:145 | the Cluster column equals the labels, and dropping it gives back the loaded rows |
| Segmenter.CountOf | step2.py:158 | a count is at most the number of rows, and it is 0 exactly when the label does not occur |
| Segmenter.CountsCoverRows | step2.py:158-162 | with labels in [0, k), the counts of the k clusters sum to the number of rows |
| Segmenter.ValueCounts | step2.py:158 | every listed pair is (label, count of that label) for a label in [0, k) that occurs, so the count is positive |
| Segmenter.ValueCountsIncreasing | step2.py:158 | the pairs come in strictly increasing label order, as sort_index() gives |
| Segmenter.ValueCountsListsLabel | step2.py:158-160 | every label in [0, k) that occurs is listed with its count |
| Segmenter.ValueCountsCoverRows | step2.py:158-162 | with labels in [0, k), the listed counts sum to the number of rows |
| Segmenter.Members | step2.py:172 | a subset never has more rows than the frame |
| Segmenter.MembersAreLabelled | step2.py:172 | the subset for label c holds only rows of the frame labelled c, and it holds every such row |
| Segmenter.MembersCount | step2.py:172-174 | each subset has as many rows as value_counts reports for its label |
| Segmenter.MembersDisjoint | step2.py:171-172 | the subsets for two different labels share no row |
| Segmenter.Subsets | step2.py:171-172 | one subset per c in range(k), and entry c is the subset for label c |
| Segmenter.MembersMultiplicity | step2.py:172 | a row occurs in the subset for c as often as in the frame when it is labelled c, and not at all otherwise |
| Segmenter.MembersPartitionRows | step2.py:171-172 | with labels in [0, optimal_k), the subsets for range(optimal_k) together are exactly the frame's rows as a multiset, so each row is in exactly one subset, as often as in the frame |
| Segmenter.SortById | step2.py:184 | the output is sorted by id and is a permutation of the input |
| Segmenter.SortKeepsLoadOrder | step2.py:184 | rows loaded ORDER BY id are left in the same order by the sort |
| Segmenter.OutputRows | step2.py:145-184 | the output rows are a permutation of the loaded rows with Cluster attached, sorted by id |
| Pipeline.CleanedRowsImportUnchanged | import_to_database.py:32-40 | with the corrected mapping, importing the cleaned file yields exactly the cleaned rows, in order |
| Pipeline.AsWrittenImportZeroesFlags | import_to_database.py:32-33 | as written, every row imported from the cleaned file has housing = 0 and loan = 0 |
| Pipeline.TwoRowExample | step1_clean_data.py:8-16 | rows (30, 1000, yes, no, 2) and (45, -500, no, yes, 1) clean to (30, 1000.0, 1, 0, 2) and (45, -500.0, 0, 1, 1); the importer as written stores the first as (30, 1000.0, 0, 0, 2) |

## Left out

- Reading and writing CSV files, pandas internals (`read_csv`, `to_csv`, `describe`, `head`) and all console output. Rows are sequences of records.
- The other columns of the raw extract. The column selection is expressed by the five-field record types.
- Parsing of numeric cells. Cells are modelled as already-parsed numbers. The truncation that `astype(int)`/`int()` would apply to a fractional age or campaign is not modelled.
- MySQL specifics: connecting, errno-based messages, CREATE DATABASE, the DDL text, indexes, charset and engine, and the post-import verification queries (COUNT, MIN, MAX, AVG, latest rows). The fatal aborts on connection and DDL errors are outside the model. `Recreate` treats DROP plus CREATE as one step.
- The auto-increment `id` and `created_at` columns. The table stores the five data columns, and the Segmenter takes rows with ids as input.
- An error raised by `conn.commit()` itself. Only an error inside the batch INSERT is modelled, through the `Fault` parameter.
- `StandardScaler` and `KMeans`. Inertias enter as a function of K and labels as a sequence, and NaN inertias are not considered.
- The per-cluster means and `describe` statistics (floating-point aggregates), the elbow plot, the percentages, the report's bar length and the report file.
- The blocking `input()` prompts. The answers are string parameters.
- Non-ASCII whitespace, case mapping and digits in `strip`, `lower` and `isdigit`. Only ASCII is modelled.
- The K-means failure on an `optimal_k` of 0 or larger than the row count. As in the code, the choice is not range-checked, and the model stops at the choice.
- Segmenter.AttachClusters: requires one label per row. pandas raises on a length mismatch, which `fit_predict` on the same frame never produces.
- Segmenter.SortById: is a stable insertion sort, while `sort_values` uses an unstable quicksort. The two agree because ids are unique primary keys.
- Floating point: inertias, their differences and the second differences are exact reals, not float64. Rounding in `np.diff` could move `argmax` when two second differences nearly tie; the elbow lemmas hold for exact arithmetic only. Balances are reals as well.

## Findings

| source | as written | input that shows it | evidently intended | confidence | as-written member | corrected member |
|---|---|---|---|---|---|---|
| import_to_database.py:32-33 | `map({'yes': 1, 'no': 0}).fillna(0)` runs on the cleaned file. That file already stores housing and loan as the numbers 1/0, so every value maps to NaN and then to 0 | the cleaned row (30, 1000.0, 1, 0, 2) is stored as (30, 1000.0, 0, 0, 2); every imported row loses both flags (Pipeline.TwoRowExample, Pipeline.AsWrittenImportZeroesFlags) | flags already coded 1/0 keep their value, and yes/no text is still mapped | high; not executed | Importer.CategoricalAsWritten | Importer.Categorical |
| step2.py:120 | `elbow_point = argmax(second_diff) + 2`. `second_diff[j]` is centred on `inertias[j+1]`, which belongs to K = j+3 | inertias 100, 50, 40, 35, 32 for K = 2..6 have the largest curvature at K = 3, but the code reports K = 2, where no curvature is defined (Segmenter.ElbowAsWrittenMissesKnee) | the offset +3, so the estimate is the K of largest curvature | medium; not executed | Segmenter.ElbowAsWritten | Segmenter.Elbow |
