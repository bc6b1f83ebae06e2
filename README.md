# A verified model of the PPL evaluation scripts

The `ppl/` directory of the repository holds the scripts that build and score
a benchmark of PPL (OpenSearch's Piped Processing Language) queries generated
by a language model. This project models their core in Dafny and proves
properties of the model:

- **The result-table oracle** (`ppl/eval_ppl/utils.py`):
  - `simple_parse` builds a typed table from a PPL response;
  - `eval_execution_accuracy` decides whether a predicted table holds the gold
    table's data up to row order, column order, column names and casts;
  - `match_columns`, `match_rows` and `categorize_exec_inacc` describe why two
    tables differ.

  Tables are values (`Frames.Frame`). The pandas behaviour they depend on is a
  parameter: element casts, `to_numeric`, `round(4)`, dtype inference,
  merge-key compatibility and elementwise `==`.
- **The result comparison** (`ppl/eval_ppl/compare_results.py`): it pairs gold
  and evaluated samples, classifies each pair, counts the classes and
  computes the rates.
- **The query rewriting before execution** (`ppl/eval_ppl/run_ppl.py`):
  - `insert_after_first_pipe`;
  - the start/end/now filters spliced in after the first pipe and the `NOW()`
    substitution;
  - the `"ERROR"` sentinel stored when execution fails.
- **Time-range scoring** (`ppl/time_bench/utils.py`):
  - `parse_tagged_string`, the `<tag>value</tag>` extractor;
  - `evaluate_time_predictions`, the accuracy counters.
- **The few-shot example parser** (`ppl/utils.py`: `parse_examples`).
- **Index preparation** (`ppl/prepare_env/index_data.py`):
  - `get_date_fields`, the recursive search of a mapping for date fields;
  - the dotted-path helpers `get_field_value` and `set_field_value`.
- **The benchmark split** (`ppl/eval_ppl/split_queries.py`): the loop that
  separates time-related questions from the others.

Python exceptions become the `Failure` case of `Wrappers.Result`, which names
the exception class. JSON documents are `Json.Json` values. A JSON object keeps
its insertion order, except where the code only reads keys: a benchmark sample
is a `Json.Record` map. Numbers are exact rationals, and the rates and
accuracies are exact real quotients.

Each loop of the source is a method whose postcondition ties its result to a
recursive specification function. The lemmas state the promised properties
about those functions.

The docstring of `eval_execution_accuracy` (ppl/eval_ppl/utils.py:53-58)
promises equality up to permuted rows, permuted columns and renamed columns.
The model proves the first for every table (`Oracle.ExecutionAccuracyRowOrder`)
and the second when both tables have the same column names
(`Oracle.ExecutionAccuracyColumnOrder`). Three example lemmas show the code
falling short of the rest:

- `OracleExamples.GreedyAlignmentMissesSwap`: the first-fit alignment pairs
  renamed columns by value set alone, so a renamed copy of the gold table can
  be judged unequal.
- `OracleExamples.CastPersistsAfterRejection`: a cast tried for a rejected
  candidate stays applied to the gold column. The gold table holds 1.5 and 7,
  and the prediction holds 7 and 1.5 under other names, so both tables have
  two columns. Trying the integer column first truncates the gold 1.5 to 1,
  and the float column is then compared with 1.0 and rejected, although it
  is accepted against the gold table as it was. The verdict is unequal. With
  the prediction's two columns in the other order, it is equal.
- `OracleExamples.ColumnOrderMattersWhenRenamed`: when the names differ,
  permuting the prediction's columns can change the verdict. Column-order
  invariance therefore holds only when the names agree.

## Model

| member | source | states |
|---|---|---|
| Json.Lookup | ppl/prepare_env/index_data.py:65 | `d.get(key)`: present exactly when some entry has the key, and then the value is one entry's value for it |
| Json.Get | ppl/eval_ppl/compare_results.py:36-37 | `d[key]` succeeds exactly when the key is present and yields its value; otherwise KeyError |
| Text.Strip | ppl/utils.py:90 | the result is the input minus its leading and trailing whitespace run |
| Text.Find | ppl/utils.py:98 | the index returned is the first occurrence at or after the start; None means no occurrence there |
| Text.FindIffContains | ppl/eval_ppl/split_queries.py:22 | `find` succeeds exactly when `pat in s` |
| Text.Split | ppl/utils.py:90 | `str.split(sep)` always yields at least one piece |
| Text.SplitJoin | ppl/utils.py:90 | joining the pieces of `split(sep)` with `sep` gives back the string |
| Text.SplitPiecesFree | ppl/utils.py:90 | no piece of `split(sep)` contains `sep` |
| Text.ReplaceAllAbsent | ppl/eval_ppl/run_ppl.py:52-53 | `replace` of a substring that does not occur leaves the string unchanged |
| Text.ReplaceAllSplit | ppl/eval_ppl/run_ppl.py:52-53 | `s.replace(old, new)` equals `new.join(s.split(old))`: the pieces between occurrences are kept and each occurrence becomes `new` |
| Frames.Names | ppl/eval_ppl/utils.py:67 | `df.columns`: one name per column, in column order |
| Frames.IndexOf | ppl/eval_ppl/utils.py:82 | a column looked up by name is the first column with that name; None when no column has it |
| Frames.CastValues | ppl/eval_ppl/utils.py:82 | casting a column succeeds exactly when every element casts, and then holds the element casts in order |
| Frames.RoundValues | ppl/eval_ppl/utils.py:86-87 | rounding keeps the length and rounds each element |
| Frames.AsType | ppl/eval_ppl/utils.py:82 | `astype({col: t})` keeps the column names and the row count |
| Frames.RoundColumn | ppl/eval_ppl/utils.py:86-87 | `round({col: 4})` keeps names, row count and every dtype |
| Frames.Rename | ppl/eval_ppl/utils.py:96-98 | `rename(columns={from: to})` renames exactly the columns named `from` and keeps values and dtypes |
| Frames.RenameIndexOf | ppl/eval_ppl/utils.py:96-98 | after a rename to a fresh name, the column is found under the new name at the old position |
| Frames.KeyRow | ppl/eval_ppl/utils.py:124-125 | a row restricted to the merge keys has one cell per key |
| Frames.PosRow | ppl/eval_ppl/utils.py:228 | a row from `itertuples` has one cell per column |
| Frames.Without | ppl/eval_ppl/utils.py:72-75 | the list comprehension that drops the common columns keeps exactly the other members, in order |
| Frames.WithoutCard | ppl/eval_ppl/utils.py:158-159 | without duplicates, dropping a subset of the names removes exactly that many |
| Frames.RemoveFirst | ppl/eval_ppl/utils.py:95 | `list.remove` takes out one occurrence when there is one, as a multiset difference, and otherwise changes nothing |
| Frames.PermuteRows | ppl/eval_ppl/utils.py:54-55 | reordering the rows of a table by a permutation |
| Frames.PermutedDtypes | ppl/eval_ppl/utils.py:54-55 | a row permutation keeps names, lookups and dtypes |
| Frames.PermutedValueSet | ppl/eval_ppl/utils.py:92-93 | a row permutation keeps every column's value set |
| Frames.CastValuesPermuted | ppl/eval_ppl/utils.py:82 | a cast succeeds on a permuted column exactly when it does on the original, and yields the permuted result |
| Frames.AsTypePermuted | ppl/eval_ppl/utils.py:82 | `astype` and a row permutation commute, failure included |
| Frames.RoundColumnPermuted | ppl/eval_ppl/utils.py:86-87 | rounding and a row permutation commute |
| Frames.RenamePermuted | ppl/eval_ppl/utils.py:96-98 | renaming and a row permutation commute |
| Frames.PermutedKeyRowSet | ppl/eval_ppl/utils.py:124-128 | a row permutation keeps the set of key rows |
| Frames.AsTypeOther | ppl/eval_ppl/utils.py:82 | `astype({col: t})` leaves the values of every other column as they were |
| Frames.RoundColumnOther | ppl/eval_ppl/utils.py:86-87 | `round({col: 4})` leaves the values of every other column as they were |
| Frames.RoundColumnAt | ppl/eval_ppl/utils.py:86-87 | without duplicate names, `round({col: 4})` rounds the column of that name and keeps each other column |
| Frames.RemoveFirstDistinct | ppl/eval_ppl/utils.py:95 | removing a member from a list without duplicates leaves one without duplicates that lacks it |
| Frames.PermutationInjective | ppl/eval_ppl/utils.py:54-60 | a permutation of the column positions sends distinct positions to distinct positions |
| Frames.PermuteColumns | ppl/eval_ppl/utils.py:54-60 | reordering the columns of a table by a permutation |
| Frames.ColumnsPermutedNames | ppl/eval_ppl/utils.py:67 | a column permutation keeps the name set and the absence of duplicate names |
| Frames.ColumnsPermutedIndexOf | ppl/eval_ppl/utils.py:82 | after a column permutation a name is found at the permuted position, or nowhere as before |
| Frames.ColumnsPermutedLookup | ppl/eval_ppl/utils.py:124-128 | a column permutation keeps every dtype looked up by name and every key row |
| Oracle.FieldNames | ppl/eval_ppl/utils.py:33 | the schema's names, one per field, in schema order |
| Oracle.Width | ppl/eval_ppl/utils.py:35 | the width is an upper bound on every row's length and is reached by some row |
| Oracle.Construct | ppl/eval_ppl/utils.py:35 | `pd.DataFrame(rows, columns=names)` succeeds exactly when there are no rows or the widest row has one cell per name; columns are the padded row cells |
| Oracle.NumericValues | ppl/eval_ppl/utils.py:43 | `to_numeric(errors="coerce")` converts each element in place |
| Oracle.NormalizeColumn | ppl/eval_ppl/utils.py:38-47 | one pass of the loop keeps the column's name and length |
| Oracle.IntFieldAlwaysCoerced | ppl/eval_ppl/utils.py:41-43 | a field declared `int` is always converted to nullable Int64 through `to_numeric` and succeeds exactly when every coerced value casts |
| Oracle.OtherFieldCastRule | ppl/eval_ppl/utils.py:44-47 | any other column is cast only when its name is an `INDEX_TYPES` key and it has no missing value; an unknown declared type then raises KeyError |
| Oracle.SimpleParse | ppl/eval_ppl/utils.py:32-49 | the result keeps the schema's names and the row count, fails as construction fails, and otherwise succeeds exactly when every column normalises, holding the normalised columns |
| Oracle.TryCandidates | ppl/eval_ppl/utils.py:80-101 | the inner loop keeps the gold names and both row counts, and a candidate taken comes from the pool |
| Oracle.TryCandidatesRenames | ppl/eval_ppl/utils.py:92-98 | a taken candidate has the gold column's value set and afterwards holds it under the gold name |
| Oracle.AlignColumns | ppl/eval_ppl/utils.py:78-104 | the outer loop takes one distinct pool member per gold column |
| Oracle.UnmatchedIsFalse | ppl/eval_ppl/utils.py:103-106 | an unmatched gold column, or a predicted column left over, makes the verdict False |
| Oracle.DtypeMap | ppl/eval_ppl/utils.py:110-112 | the dict comprehension has exactly the predicted column names as keys |
| Oracle.DtypeMapOwn | ppl/eval_ppl/utils.py:110-112 | without duplicate names, each column name maps to that column's dtype |
| Oracle.DtypeMapDtypeOf | ppl/eval_ppl/utils.py:110-112 | the dtype the map gives a name is the dtype of the predicted column of that name |
| Oracle.CastColumns | ppl/eval_ppl/utils.py:109-112 | a dict `astype` succeeds exactly when every mapped column casts; mapped columns are cast, the others kept |
| Oracle.CastAll | ppl/eval_ppl/utils.py:109-112 | `astype(mapping)` fails when a key names no column or a cast fails, and keeps names and row count |
| Oracle.CastAllDtypeOf | ppl/eval_ppl/utils.py:109-112 | after the cast, each mapped column has the mapped dtype |
| Oracle.RoundFloats | ppl/eval_ppl/utils.py:115-118 | the rounding loop keeps names, row counts and dtypes of both tables |
| Oracle.RoundFloatsSame | ppl/eval_ppl/utils.py:115-118 | rounding a table against itself leaves two equal tables |
| Oracle.CoversSubset | ppl/eval_ppl/utils.py:124-128 | every row of one table appearing in the other is inclusion of key-row sets |
| Oracle.RowsMatchMeaning | ppl/eval_ppl/utils.py:122-131 | the merge check holds exactly when there are keys, every key pair is mergeable and each table's key rows appear in the other |
| Oracle.EqualNamesRowCheck | ppl/eval_ppl/utils.py:108-128 | with equal name sets and a successful cast, the verdict is equality of the key-row sets after rounding |
| Oracle.EvalExecutionAccuracy | ppl/eval_ppl/utils.py:52-131 | the method with the source's loops and rebinding computes the specified verdict |
| Oracle.ExecutionAccuracyWidth | ppl/eval_ppl/utils.py:67-106 | tables judged equal have the same number of columns |
| Oracle.ExecutionAccuracySelf | ppl/eval_ppl/utils.py:52-61 | a table with at least one column is judged equal to itself when its casts are identities |
| Oracle.RowsMatchPermuted | ppl/eval_ppl/utils.py:122-128 | the merge verdict does not depend on row order |
| Oracle.TryCandidatesPermuted | ppl/eval_ppl/utils.py:80-101 | the inner loop takes the same candidate whatever the row order |
| Oracle.AlignColumnsPermuted | ppl/eval_ppl/utils.py:78-104 | the alignment succeeds and leaves the same pool whatever the row order |
| Oracle.RoundFloatsPermuted | ppl/eval_ppl/utils.py:115-118 | rounding commutes with row permutations |
| Oracle.CastAllPermuted | ppl/eval_ppl/utils.py:109-112 | the dict cast commutes with row permutations, failure included |
| Oracle.ExecutionAccuracyRowOrder | ppl/eval_ppl/utils.py:54-55 | the verdict is unchanged by permuting the rows of either table |
| Oracle.RoundFloatsCols | ppl/eval_ppl/utils.py:115-118 | the rounding loop rounds exactly the columns whose name the prediction has as a float, in both tables, and keeps every other column |
| Oracle.DtypeMapNames | ppl/eval_ppl/utils.py:110-112 | without duplicate names, the dtype map's keys are the column names and each maps to its column's dtype |
| Oracle.DtypeMapColumnsPermuted | ppl/eval_ppl/utils.py:110-112 | the dtype map does not depend on the prediction's column order |
| Oracle.RowsMatchColumnsPermuted | ppl/eval_ppl/utils.py:122-128 | the merge verdict does not depend on the prediction's column order |
| Oracle.RoundedIfColumnsPermuted | ppl/eval_ppl/utils.py:115-118 | whether a column is rounded does not depend on the prediction's column order |
| Oracle.RoundFloatsGoldSame | ppl/eval_ppl/utils.py:115-118 | the rounded gold table does not depend on the prediction's column order |
| Oracle.RoundFloatsPredPermuted | ppl/eval_ppl/utils.py:115-118 | rounding a prediction with permuted columns gives the rounded prediction with the same permutation |
| Oracle.ExecutionAccuracyColumnOrder | ppl/eval_ppl/utils.py:52-131 | when the two tables have the same column names, the verdict is unchanged by permuting the prediction's columns |
| OracleExamples.CastKeptOnRejection | ppl/eval_ppl/utils.py:80-101 | a candidate of a non-float dtype whose cast succeeds but whose value set differs is passed over, and the search goes on with the cast gold table |
| OracleExamples.CastA | ppl/eval_ppl/utils.py:82 | casting the gold float 1.5 to the integer dtype of a candidate truncates it to 1 |
| OracleExamples.DifferA | ppl/eval_ppl/utils.py:92-94 | the cast gold column {1} and the integer candidate {7} have different value sets |
| OracleExamples.TryA | ppl/eval_ppl/utils.py:80-101 | the integer candidate is rejected and the truncating cast stays applied to the gold column |
| OracleExamples.TryB | ppl/eval_ppl/utils.py:80-101 | the float candidate then sees the gold column as 1.0 and is rejected too |
| OracleExamples.RoundingKeepsB | ppl/eval_ppl/utils.py:85-87 | rounding to four places leaves both float columns of the example unchanged |
| OracleExamples.AlignRejects | ppl/eval_ppl/utils.py:78-104 | the first gold column finds no candidate, so the column loop returns False |
| OracleExamples.FloatCastKeepsGold | ppl/eval_ppl/utils.py:82-87 | casting the gold float column to the float dtype and rounding it changes nothing |
| OracleExamples.FloatAloneAccepted | ppl/eval_ppl/utils.py:80-101 | against the gold table as it was on entry, the float candidate is accepted for the first gold column |
| OracleExamples.FloatFirstStep | ppl/eval_ppl/utils.py:80-101 | with the float candidate first in the pool, the first gold column takes it and it is renamed |
| OracleExamples.IntCastKeepsGold | ppl/eval_ppl/utils.py:82 | casting the gold integer column to the integer dtype changes nothing |
| OracleExamples.FloatSecondStep | ppl/eval_ppl/utils.py:80-101 | the second gold column takes the integer candidate, and the renamed prediction is the gold table |
| OracleExamples.FloatFirstAlign | ppl/eval_ppl/utils.py:78-104 | with the float column first, the alignment succeeds and empties the pool |
| OracleExamples.WithoutNothing | ppl/eval_ppl/utils.py:72-75 | filtering out no common name keeps the column list as it is |
| OracleExamples.DisjointVerdict | ppl/eval_ppl/utils.py:67-131 | when the two tables share no column name, the verdict is the alignment's outcome followed by the merge check |
| OracleExamples.MixedNamesApart | ppl/eval_ppl/utils.py:67-75 | the gold names g1, g2 and the prediction names a, b are disjoint and the name sets differ |
| OracleExamples.MixedRowsMatchItself | ppl/eval_ppl/utils.py:122-131 | the merge check holds between the gold table and itself |
| OracleExamples.FloatFirstMatches | ppl/eval_ppl/utils.py:63-131 | with the float column first, the prediction is judged equal |
| OracleExamples.IntFirstRejected | ppl/eval_ppl/utils.py:63-131 | with the integer column first, the same prediction is judged unequal |
| OracleExamples.FloatFirstIsPermuted | ppl/eval_ppl/utils.py:54-60 | the float-first prediction is the integer-first one with its two columns permuted |
| OracleExamples.CastPersistsAfterRejection | ppl/eval_ppl/utils.py:63-131 | for two tables of equal width, the float candidate is accepted alone but rejected after the integer candidate's cast, the verdict is unequal, and the same prediction with its columns permuted is judged equal |
| OracleExamples.GreedyFirstStep | ppl/eval_ppl/utils.py:80-101 | the first gold column takes the first candidate with an equal value set |
| OracleExamples.GreedySecondStep | ppl/eval_ppl/utils.py:80-101 | the second gold column takes the one remaining |
| OracleExamples.GreedyAlign | ppl/eval_ppl/utils.py:78-104 | the first-fit alignment pairs "p1" with "g1" and "p2" with "g2" and empties the pool |
| OracleExamples.GreedyRowsDiffer | ppl/eval_ppl/utils.py:122-128 | the greedy alignment pairs columns whose rows differ |
| OracleExamples.GreedyAlignmentMissesSwap | ppl/eval_ppl/utils.py:78-128 | a prediction equal to the gold table up to a column renaming is judged unequal, while the correctly named one is judged equal |
| OracleExamples.SwappedCast | ppl/eval_ppl/utils.py:109-112 | on equal names the cast changes nothing for these integer tables |
| OracleExamples.SwappedRound | ppl/eval_ppl/utils.py:115-118 | with no float column rounding changes nothing |
| OracleExamples.SwappedRows | ppl/eval_ppl/utils.py:122-128 | the merge check holds for the swapped-column table |
| OracleExamples.SameNamesVerdict | ppl/eval_ppl/utils.py:108-131 | when the name sets agree and the cast succeeds, the verdict is the merge check after rounding |
| OracleExamples.SwappedMatches | ppl/eval_ppl/utils.py:108-131 | the swapped-column table is judged equal |
| OracleExamples.ReorderedFirstStep | ppl/eval_ppl/utils.py:80-101 | with the prediction's columns swapped, the first gold column takes the other candidate first |
| OracleExamples.ReorderedSecondStep | ppl/eval_ppl/utils.py:80-101 | and the second gold column takes the one remaining |
| OracleExamples.ReorderedAlign | ppl/eval_ppl/utils.py:78-104 | so the alignment renames the swapped prediction into the gold table |
| OracleExamples.ReorderedMatches | ppl/eval_ppl/utils.py:52-131 | the swapped prediction is judged equal |
| OracleExamples.ReorderedIsPermuted | ppl/eval_ppl/utils.py:54-60 | the swapped prediction is the original with its two columns permuted |
| OracleExamples.ColumnOrderMattersWhenRenamed | ppl/eval_ppl/utils.py:52-131 | when the names differ, permuting the prediction's columns changes the verdict from unequal to equal |
| Triage.CommonColumns | ppl/eval_ppl/utils.py:139 | the common columns are exactly the names in both tables |
| Triage.CommonStep | ppl/eval_ppl/utils.py:142-155 | one common column's cast and rounding keep both tables' names and row counts |
| Triage.CheckCommon | ppl/eval_ppl/utils.py:142-155 | the loop over common columns keeps both tables' names and row counts |
| Triage.CheckCommonVerdicts | ppl/eval_ppl/utils.py:142-155 | that loop can only answer "Column type mismatch", or "Column value mismatch" where values are compared |
| Triage.ProbeCandidates | ppl/eval_ppl/utils.py:163-175 | the candidate loop keeps A and B's row count and width, keeps B's names unless it renames, and takes a pool member; without renaming, the member taken has A's column's value set after the cast and round |
| Triage.MatchRemaining | ppl/eval_ppl/utils.py:161-178 | each remaining column consumes one pool member; both tables keep row count and width, A keeps its names, and B too when nothing is renamed |
| Triage.RowsCovered | ppl/eval_ppl/utils.py:228-233 | the row loop raises exactly when A has rows and the widths differ; otherwise it answers "B contains A" exactly when every row of A equals some row of B position by position, and "Other" exactly when some row of A equals none |
| Triage.CommonColumn | ppl/eval_ppl/utils.py:143-155 | the method for one common column computes the specified step |
| Triage.CommonLoop | ppl/eval_ppl/utils.py:142-155 | the loop method computes the specified probe |
| Triage.CandidateLoop | ppl/eval_ppl/utils.py:163-175 | the candidate loop method computes the specified step |
| Triage.RemainingLoop | ppl/eval_ppl/utils.py:161-178 | the remaining-columns loop method computes the specified result |
| Triage.MatchColumns | ppl/eval_ppl/utils.py:134-181 | `match_columns` computes the specified verdict |
| Triage.MatchColumnsContains | ppl/eval_ppl/utils.py:134-181 | "B contains A" means: every common column has equal value sets in both tables after its cast and round, and every other column of A took its own B column, distinct from the others and from the common ones, with an equal value set after the cast; so A has no more columns than B |
| Triage.SharedCounts | ppl/eval_ppl/utils.py:158-159 | the remaining columns and the shared ones add up to each table's width |
| Triage.RowLoop | ppl/eval_ppl/utils.py:228-233 | the row loop method computes the specified verdict |
| Triage.MatchRows | ppl/eval_ppl/utils.py:184-233 | `match_rows` computes the specified verdict |
| Triage.AllCommon | ppl/eval_ppl/utils.py:201 | when every column of A is common, A has no more columns than B |
| Triage.MatchRowsContains | ppl/eval_ppl/utils.py:184-233 | "B contains A" means: after the casts, rounding and renaming, every row of A equals some row of B position by position; A is no wider than B, and as wide as B when A has rows |
| Triage.MatchRowsSameWidth | ppl/eval_ppl/utils.py:228-231 | on tables of equal width `match_rows` does not raise |
| Triage.Categorize | ppl/eval_ppl/utils.py:236-297 | `categorize_exec_inacc` never raises |
| Triage.CategorizeStatus | ppl/eval_ppl/utils.py:238-295 | the shape status is decided by the two shape comparisons alone; there is no detail exactly when both differ |
| Triage.CategorizeSameShape | ppl/eval_ppl/utils.py:241-254 | for equal shapes: missing values first, then a "None" in the prediction, otherwise "Other" |
| Triage.CategorizeColumnsDirection | ppl/eval_ppl/utils.py:256-271 | for equal row counts the wider table is checked for the narrower one's columns, and the detail is that containment or "Other" |
| Triage.CategorizeRowsDirection | ppl/eval_ppl/utils.py:276-291 | for equal widths the longer table is checked for the shorter one's rows, and the detail is that containment or "Other" |
| Triage.CommonStepLocal | ppl/eval_ppl/utils.py:143-155 | one common column's cast and rounding leave every other column's values in both tables as they were |
| Triage.CheckCommonPairs | ppl/eval_ppl/utils.py:142-155 | when the common-column loop of `match_columns` finds nothing, every common column has equal value sets in the two tables it leaves, and no other column has changed |
| Triage.ProbeLocal | ppl/eval_ppl/utils.py:163-175 | the candidate loop changes A only in the column being matched, and B only in the candidates |
| Triage.RemainingLocal | ppl/eval_ppl/utils.py:161-178 | the remaining-columns loop changes A only in those columns, and B only in the pool |
| Triage.RemainingPairs | ppl/eval_ppl/utils.py:161-178 | when every remaining column is matched, each took a distinct pool member whose value set equals its own in the tables the loop leaves |
| Triage.SideNames | ppl/eval_ppl/utils.py:158-159 | the two lists of non-common columns have no duplicates and nothing in common, and B's list holds names of B |
| CompareResults.ExactRule | ppl/eval_ppl/compare_results.py:40 | `len(gt_rows) < 10 and len(gt_rows[0]) < 5`: IndexError on an empty list; false for ten or more rows without reading row 0; otherwise the width test on row 0 |
| CompareResults.Classify | ppl/eval_ppl/compare_results.py:21-74 | one pair: the sentinel is a syntax error; an empty gold list raises IndexError; a small gold table needs equality; any other needs equal lengths; each label holds exactly when its condition does |
| CompareResults.Outcomes | ppl/eval_ppl/compare_results.py:21 | the pairing stops at the shorter list, and each outcome classifies its pair |
| CompareResults.MismatchesOf | ppl/eval_ppl/compare_results.py:18-74 | there are at most as many mismatch entries as pairs |
| CompareResults.CountMatched | ppl/eval_ppl/compare_results.py:43-59 | matched pairs and mismatch entries add up to the number of pairs |
| CompareResults.CountLabel | ppl/eval_ppl/compare_results.py:76-81 | the count under one label is at most the number of entries |
| CompareResults.CountLabelAppend | ppl/eval_ppl/compare_results.py:76-81 | counting under a label is additive over concatenation |
| CompareResults.LabelsPartition | ppl/eval_ppl/compare_results.py:76-81 | every mismatch entry carries exactly one of the three labels |
| CompareResults.CountLabelOutcomes | ppl/eval_ppl/compare_results.py:76-81 | the counting loop's tally of a label equals the number of pairs classified under it |
| CompareResults.ScanOutcomes | ppl/eval_ppl/compare_results.py:21-74 | the comparison loop succeeds exactly when every pair classifies, and its counters are those of the outcomes |
| CompareResults.CountMismatches | ppl/eval_ppl/compare_results.py:76-81 | the counting loop computes the counts under the two labels |
| CompareResults.Compare | ppl/eval_ppl/compare_results.py:13-101 | `compare_results` without file I/O computes the specified summary |
| CompareResults.CompareCounts | ppl/eval_ppl/compare_results.py:13-101 | the four counters add up to the number of pairs; each equals its outcome count; the list holds every mismatch; the total is the gold length |
| CompareResults.CompareFails | ppl/eval_ppl/compare_results.py:13-87 | the comparison fails exactly when a pair raises or the gold list is empty, which is ZeroDivisionError |
| CompareResults.CompareRates | ppl/eval_ppl/compare_results.py:84-87 | each rate times the total is its count |
| CompareResults.FailedRunIsSyntaxError | ppl/eval_ppl/run_ppl.py:62-64 | a sample whose execution failed is classified as a syntax error with the gold `now` and both queries |
| RunPpl.FirstPipe | ppl/eval_ppl/run_ppl.py:32 | the position of the first pipe, with no pipe before it; None when there is no pipe |
| RunPpl.InsertAfterFirstPipe | ppl/eval_ppl/run_ppl.py:31-37 | the query grows by the text and one pipe when it has a pipe, and not at all otherwise |
| RunPpl.InsertAfterFirstPipeShape | ppl/eval_ppl/run_ppl.py:31-37 | a query without a pipe is returned unchanged; otherwise the text and a pipe follow the first pipe |
| RunPpl.InsertionRemovable | ppl/eval_ppl/run_ppl.py:31-37 | cutting the inserted text and pipe out again gives back the query |
| RunPpl.InsertTwice | ppl/eval_ppl/run_ppl.py:41-51 | a second insertion keeps the first pipe where it was and goes in front of the first insertion |
| RunPpl.InsertInto | ppl/eval_ppl/run_ppl.py:43 | inserting into a query that is not a string raises AttributeError |
| RunPpl.StartStepShape | ppl/eval_ppl/run_ppl.py:42-45 | the start filter goes right after the first pipe, or nowhere when start is missing or null |
| RunPpl.EndStepShape | ppl/eval_ppl/run_ppl.py:46-49 | the end filter goes right after the first pipe, in front of what is there |
| RunPpl.NowStepShape | ppl/eval_ppl/run_ppl.py:50-51 | the `< NOW()` filter goes right after the first pipe |
| RunPpl.RewriteShape | ppl/eval_ppl/run_ppl.py:41-53 | a piped query becomes prefix, pipe, now filter, end filter, start filter, rest; `NOW()` is then replaced by `now`, and a non-string `now` raises TypeError |
| RunPpl.RewriteWithoutPipe | ppl/eval_ppl/run_ppl.py:41-53 | a query without a pipe only undergoes the `NOW()` substitution |
| RunPpl.Run | ppl/eval_ppl/run_ppl.py:40-65 | `run_ppl` stores the rewritten query, the response's rows and schema when both came back and the `"ERROR"` sentinel otherwise, and no other key changes |
| TimeBench.WordRun | ppl/time_bench/utils.py:22 | `\w+` from a position: the maximal run of word characters |
| TimeBench.TagAt | ppl/time_bench/utils.py:22 | a match at a position is `<tag>value</tag>` with a word tag and no earlier closing tag (the lazy `.*?`) |
| TimeBench.FindAll | ppl/time_bench/utils.py:22-25 | every pair `findall` returns has a word tag and occurs tagged in the text |
| TimeBench.WordRunExact | ppl/time_bench/utils.py:22 | `\w+` at a position covers exactly the word characters before the next non-word character |
| TimeBench.TaggedAt | ppl/time_bench/utils.py:22 | a `<tag>value</tag>` at a position puts the tag there as a whole word run between `<` and `>`, and the closing tag after the value |
| TimeBench.TagAtFinds | ppl/time_bench/utils.py:22 | whenever `<tag>value</tag>` starts at a position, the pattern matches there with that tag and a value no longer than `value` |
| TimeBench.TagAtComplete | ppl/time_bench/utils.py:22 | no match at a position means no `<tag>value</tag>` with a word tag starts there |
| TimeBench.FindAllNonEmpty | ppl/time_bench/utils.py:22-25 | `findall` finds a match whenever a tagged occurrence starts at or after its starting position |
| TimeBench.FindAllLeftmost | ppl/time_bench/utils.py:22-25 | its first match is at the leftmost tagged occurrence, with that occurrence's tag |
| TimeBench.LeftmostCollected | ppl/time_bench/utils.py:17-36 | the tag of the leftmost tagged occurrence is a key of the parsed dictionary |
| TimeBench.ParseTaggedString | ppl/time_bench/utils.py:17-36 | `parse_tagged_string` computes the specified dictionary |
| TimeBench.LastWith | ppl/time_bench/utils.py:29-34 | the last match with a given tag, when there is one |
| TimeBench.CollectLast | ppl/time_bench/utils.py:28-34 | a tag is a key exactly when some match has it, and the value is the normalised value of its last match |
| TimeBench.CollectedTags | ppl/time_bench/utils.py:17-36 | every key is a word tag holding the normalised value of some tagged occurrence |
| TimeBench.NormalizeMeaning | ppl/time_bench/utils.py:31-34 | a value that strips to "null" becomes None, any other its stripped text |
| TimeBench.Judge | ppl/time_bench/utils.py:120-137 | a sample is a time series exactly when start and end are not None; in that case correct means equal start and end, otherwise both predicted None; missing keys raise KeyError |
| TimeBench.JudgeAll | ppl/time_bench/utils.py:119-121 | all samples judged in order; fewer predictions than samples raises IndexError |
| TimeBench.JudgeAllFails | ppl/time_bench/utils.py:119-121 | once a sample raises, the loop ends with that exception |
| TimeBench.CountWhere | ppl/time_bench/utils.py:112-137 | a counter never exceeds the number of samples |
| TimeBench.CountsPartition | ppl/time_bench/utils.py:123-137 | every sample is counted in exactly one total, and correct counts stay below their totals |
| TimeBench.EvaluateTimePredictions | ppl/time_bench/utils.py:99-167 | `evaluate_time_predictions` computes the specified scores |
| TimeBench.ScoresBounds | ppl/time_bench/utils.py:139-167 | the totals add up to the number of samples; correct counts are bounded by totals; an empty class scores 0; no errors are kept unless asked for |
| TimeBench.RatioMeaning | ppl/time_bench/utils.py:140-153 | an accuracy lies in [0, 1] and times its total gives its correct count |
| TimeBench.ErrorsExact | ppl/time_bench/utils.py:129-137 | the error list holds exactly the incorrect samples, in index order, with their truth and prediction |
| ExamplesParser.SearchTagFound | ppl/utils.py:98-101 | the lazy `<tag>(.*?)</tag>` search succeeds exactly when some opening tag is followed by a closing tag |
| ExamplesParser.SearchTagCapture | ppl/utils.py:98-101 | a successful search captures the text between the first opening tag and the first closing tag after it: opening tag, capture and closing tag occur together there, with no opening tag earlier and no closing tag inside the capture |
| ExamplesParser.Blocks | ppl/utils.py:90 | the blocks are the stripped pieces of the stripped text split on blank lines |
| ExamplesParser.BlocksMeaning | ppl/utils.py:90 | every block is stripped, no piece holds a blank line, and joining the pieces gives back the stripped text |
| ExamplesParser.StripIdempotent | ppl/utils.py:90 | stripping twice is stripping once |
| ExamplesParser.ParseBlock | ppl/utils.py:94-111 | a block yields an example exactly when it is non-empty and all four tags are found, holding the four captures |
| ExamplesParser.Parsed | ppl/utils.py:93-111 | one outcome per block, in block order |
| ExamplesParser.Keep | ppl/utils.py:93-111 | there are at most as many examples as blocks |
| ExamplesParser.ParseExamples | ppl/utils.py:89-113 | `parse_examples` computes the specified examples |
| ExamplesParser.ParseOne | ppl/utils.py:94-111 | one iteration of the loop yields what the block specifies: nothing for an empty block or a missing tag, otherwise the four captures |
| ExamplesParser.KeepOrder | ppl/utils.py:93-111 | the examples come from strictly increasing blocks, each yielding its example, and every block yielding one is taken |
| IndexData.DateFields | ppl/prepare_env/index_data.py:56-84 | a mapping without "properties" has no date fields |
| IndexData.GetDateFields | ppl/prepare_env/index_data.py:56-84 | `get_date_fields` computes the specified list |
| IndexData.FieldDateFields | ppl/prepare_env/index_data.py:61-82 | one field's iteration computes the specified contribution |
| IndexData.MultiFieldDateFields | ppl/prepare_env/index_data.py:73-82 | the multi-field loop computes the specified contribution |
| IndexData.FieldsDatesContains | ppl/prepare_env/index_data.py:61-82 | every field's contribution is part of the result |
| IndexData.SubFieldsDatesContains | ppl/prepare_env/index_data.py:74-82 | every multi-field's contribution is part of its field's |
| IndexData.DateFieldsComplete | ppl/prepare_env/index_data.py:62-70 | a date-typed field contributes its dotted path, and nested properties are searched under it |
| IndexData.MultiFieldsComplete | ppl/prepare_env/index_data.py:73-82 | a date-typed multi-field contributes `full_key.sub_field`, and its own properties are searched under it |
| IndexData.DateFieldsUnder | ppl/prepare_env/index_data.py:62-82 | under a non-empty prefix every path found starts with the prefix and a dot |
| IndexData.FieldsDatesUnder | ppl/prepare_env/index_data.py:61-82 | the same for the fields of one properties object |
| IndexData.FieldDatesUnder | ppl/prepare_env/index_data.py:62-82 | the same for one field |
| IndexData.SubFieldsDatesUnder | ppl/prepare_env/index_data.py:74-82 | the same for the multi-fields of one field, under its full key |
| IndexData.Follow | ppl/prepare_env/index_data.py:62-82 | following property and multi-field steps down a mapping, with the dotted path each step adds |
| IndexData.DateFieldsSound | ppl/prepare_env/index_data.py:56-84 | every path reported is the dotted path of a definition whose `type` is "date" or "date_nanos", reached by a descent through `properties` and multi-field `fields` that starts with a property |
| IndexData.FieldsDatesSound | ppl/prepare_env/index_data.py:61-82 | the same for the fields of one properties object, through one of its fields |
| IndexData.FieldDatesSound | ppl/prepare_env/index_data.py:62-82 | the same for one field, from its own definition |
| IndexData.SubFieldsDatesSound | ppl/prepare_env/index_data.py:74-82 | the same for the multi-fields of one field, through one of them |
| IndexData.SubFieldDatesSound | ppl/prepare_env/index_data.py:75-82 | the same for one multi-field, under `full_key.sub_field` |
| IndexData.FieldDatesParts | ppl/prepare_env/index_data.py:62-82 | what one field reports is itself when date-typed, its nested properties' paths, and its multi-fields' paths |
| IndexData.GetFieldValue | ppl/prepare_env/index_data.py:105-113 | `get_field_value` follows the dotted path and yields None as soon as a key is missing or a value is not an object |
| IndexData.GetMissing | ppl/prepare_env/index_data.py:105-113 | a path that is not present reads as None |
| IndexData.Update | ppl/prepare_env/index_data.py:126 | assigning an existing key keeps every key in place, sets that key and leaves the others |
| IndexData.SetPath | ppl/prepare_env/index_data.py:116-129 | writes exactly when the whole path is present, never adds a key, keeps other top-level entries, and changes nothing when it does not write |
| IndexData.GetAfterSet | ppl/prepare_env/index_data.py:116-129 | reading the path after a write gives the written value |
| IndexData.SetLeavesOthers | ppl/prepare_env/index_data.py:116-129 | every path that branches off the written one reads as before |
| IndexData.SetFieldValue | ppl/prepare_env/index_data.py:116-129 | `set_field_value` returns whether it wrote and the resulting document, as specified |
| SplitQueries.TimeRelatedMeaning | ppl/eval_ppl/split_queries.py:14-22 | a query is time-related exactly when its lower-cased text contains "date" or "time" |
| SplitQueries.Classify | ppl/eval_ppl/split_queries.py:18-22 | one sample succeeds exactly when it has `table_info` and a string query; it loses `table_info`; the verdict is time-relatedness |
| SplitQueries.SplitFails | ppl/eval_ppl/split_queries.py:17-19 | once a sample raises, the loop ends with that exception |
| SplitQueries.SplitQueries | ppl/eval_ppl/split_queries.py:10-28 | the loop computes the specified two lists |
| SplitQueries.SplitSucceeds | ppl/eval_ppl/split_queries.py:17-19 | the loop completes exactly when every sample has `table_info` and a string query |
| SplitQueries.SplitCounts | ppl/eval_ppl/split_queries.py:17-28 | the two lists' lengths add up to the number of samples |
| SplitQueries.SplitOrder | ppl/eval_ppl/split_queries.py:25-28 | each list holds exactly the samples of its verdict, in input order, without `table_info` |
| SplitQueries.TableInfoRemoved | ppl/eval_ppl/split_queries.py:18 | no sample in either list keeps `table_info` |

## Left out

- File reading and writing, `json.load`/`json.dump`, argparse, logging and printing in every script. Each entry point takes and returns values.
- The network: the OpenSearch request in `run_ppl` is the parameter `respond`, and a request that raises is `None`. Thread-pool execution and the Bedrock calls with retry and sleep (`invoke`, `setup_bedrock`) are not part of this model.
- Python `str()`/f-string formatting of JSON values is the parameter `str` of the `run_ppl` filters.
- pandas internals are parameters of `Frames.Semantics`: dtype inference, element casts, `to_numeric`, `round(4)`, merge-key compatibility and elementwise `==`. NaN semantics in merges, float rounding arithmetic and floating point in general are not modelled. Cell equality is structural, so `1 == 1.0` and `True == 1` across cell kinds are not modelled.
- Triage.Categorize and Oracle.ExecutionAccuracy: `Frames.Cell` has no list or object kind, so the list and dict values a PPL query returns for `array` and `struct` fields (the types listed at ppl/eval_ppl/utils.py:13 and 20) are not modelled. A column holding them makes `set(...)` at ppl/eval_ppl/utils.py:92, 152, 172 and 218 raise an uncaught TypeError. That comparison sits outside every `try`, so the source then raises where the model returns a verdict. `Categorize` never failing and `ExecutionAccuracy` always giving a boolean hold only for cells of the modelled kinds.
- Oracle.NormalizeColumn and Oracle.SimpleParse: a failed cast is always reported as ValueError. pandas raises TypeError for some failures, such as a non-integral float cast to `Int64`, so the exception class of a failed cast is abstracted.
- Oracle.ExecutionAccuracy and Triage.Categorize: the value-set comparisons (`set(df[col].values)` at ppl/eval_ppl/utils.py:92, 152, 172 and 218) put every NaN into the set as a distinct element, so a float column with a missing value never matches, not even an identical copy of itself. In the model `Null` equals `Null`, so such a column can match.
- CompareResults.Classify: the exact-match test compares the `data_rows` lists as `Json.Json` values structurally. Python's `==` also equates `true` with `1` and `false` with `0`, so gold `[[true]]` against evaluated `[[1]]` is a match in Python and a Data Mismatch in the model.
- Triage.CommonColumns: Python set iteration order is unspecified; the model takes the common columns in A's column order.
- Oracle.RowsMatch: a merge on an empty key list is taken to be False.
- Frames.IndexOf: duplicate column labels are resolved to the first column, where pandas would return several.
- Oracle.SimpleParse: requires distinct schema names; pandas behaviour on duplicate column labels is not modelled.
- Text.Lower and TimeBench.IsWordChar are ASCII-only, so Unicode case mapping and the Unicode letters and digits of `\w` are not modelled. Text.Strip uses the full whitespace set of `str.isspace`.
- Rates and accuracies are exact real quotients, not floats.
- Json.Json objects compare with their entry order, where Python dict equality ignores order. An object with duplicate keys is read through the first one.
- RunPpl.Run, SplitQueries.SplitQueries and IndexData.SetFieldValue: the source mutates the sample or document dict in place; the model returns the updated value, so aliasing between the input and the result is not captured.
- IndexData.GetFieldValue: a stored JSON null and a missing path both read as `JNull`, as they both give Python `None`.
- TimeBench.ParseTaggedString: the result is a map, so the insertion order of the Python dict is not modelled.
- `adjust_time_fields` beyond its two path helpers is not part of this model: datetime parsing and `utcnow` arithmetic are wall-clock and library-bound. `create_or_recreate_index` and the other OpenSearch calls of the same file are left out too.
- The rest of the repository (model preparation, instruction generation, the Java plugin) is not part of this model.
