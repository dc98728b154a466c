# RecruitQuery query execution, modelled in Dafny

RecruitQuery runs SQL-like queries over tables. This project models three
parts of it and proves properties about them:

- **Grouping** (`RqGrouping.GenerateGroups`, `grouping.dfy`). A table's rows
  are split into groups by the tuple of their last `N` values. Each row is
  stored in its group without those `N` values. It is an imperative loop over
  a map from keys to tables. The method is proved equal to a specification
  function `Groups`. Lemmas about `Groups` give:
  - coverage and disjointness;
  - a shared key within each group;
  - order kept inside each group;
  - the shapes of the groups;
  - one group per distinct key.
- **Session** (`RqSession`, `session.dfy` and `pipeline.dfy`).
  - The constructor builds the keys handed to the fetcher.
  - `Execute` resolves the source, applies the where filter, evaluates the
    needed columns, and groups them.
  - It then keeps groups by the having clause (stripping its columns), orders
    rows and groups, and projects the select list.
  - It collapses aggregated groups to one row, merges the groups into one
    table, and applies the limit.
  - Every loop of `Execute` is a method proved equal to a stage function.
  - `Session.Execute` is proved equal to the function `Run`.
  - Lemmas about `Run` state what the result is in each case.
- **Tokenizer** (`RqTokenizer.Tokenize`, `tokenizer.dfy`). The query text is
  split at every single space. A piece whose lower-case form is a command
  word is replaced by that form.

### Supporting modules

- `sequences.dfy` defines generic helpers: de-duplication, counting and
  masked selection (`Keep`), with their placement lemmas.
- `tables.dfy` defines the table value:
  - a field list and rows, with the invariant that every row is as long as
    the field list;
  - column slicing and chaining;
  - row concatenation.
- `collaborators.dfy` defines the modules the session calls but that are not
  part of this model (expression evaluator, orderings, fetcher). They are the
  function-valued fields of `Engine`. The ghost predicate `Sound` holds the
  only facts assumed of them:
  - one column per expression;
  - row count kept;
  - sorting is a permutation;
  - fetched tables are well formed.
- `results.dfy` defines `Option` and `Result`. The error `NoGroupLeft` stands
  for the `IndexError` of `res_tables[0]` when having removes every group.

### How Python truthiness is modelled

- The condition and having clauses take part only when they are present and
  not empty.
- The group list takes part when it is not empty.
- The limit takes part when it is present and not zero.
- A label source that is the empty string counts as no source.
- A negative limit slices the way Python's `rows[:L]` does, dropping the
  last `-L` rows.

## Model

| member | source | states |
|---|---|---|
| Grouping.GenerateGroups | RecruitQuery/components/grouping.py:8-17 | the rows-to-buckets map the loop builds yields exactly the groups of `Groups`: one per distinct trailing-`N` key, each holding its rows stripped of the key |
| Grouping.AddRow | RecruitQuery/components/grouping.py:12-16 | one loop step turns the buckets and key order of the first `i` rows into those of the first `i + 1` rows |
| Grouping.DistinctKeysSpec | RecruitQuery/components/grouping.py:12-14 | the group keys are pairwise distinct, every row's key is among them, and every key is some row's key |
| Grouping.GroupsShape | RecruitQuery/components/grouping.py:14-16 | every group is well-formed, has the source fields minus the last `N`, and holds at least one row |
| Grouping.RowInExactlyOneGroup | RecruitQuery/components/grouping.py:11-16 | each source row belongs to exactly one group (the one whose key is its key), and it appears there, stripped, at its rank |
| Grouping.GroupRowFromSource | RecruitQuery/components/grouping.py:12-16 | every row of a group is some source row with that group's key, with its last `N` values removed |
| Grouping.GroupKeepsSourceOrder | RecruitQuery/components/grouping.py:11-16 | two source rows with the same key land in the same group, and the earlier row comes first there |
| Grouping.GroupPerDistinctKey | RecruitQuery/components/grouping.py:10-17 | there are as many groups as distinct keys among the rows, and there are none exactly when the table has no rows |
| Grouping.GroupsCoverAllRows | RecruitQuery/components/grouping.py:11-16 | the groups together hold as many rows as the source table |
| Session.FetchKeys | RecruitQuery/components/session.py:21-34 | the fetch keys have no duplicates; they are exactly `["*"]` when any clause token is `*`, and otherwise have the same elements as the tokens of the clauses that take part |
| Session.Session.constructor | RecruitQuery/components/session.py:12-35 | the session holds the query's clauses, and its fetch keys are `FetchKeys` of them |
| Session.Session.GetEmptyTable | RecruitQuery/components/session.py:37-40 | a well-formed table with the select expressions as fields and no rows |
| Session.Run | RecruitQuery/components/session.py:42-127 | what executing a query returns; it can fail only when a having clause takes part |
| Session.Session.Execute | RecruitQuery/components/session.py:42-127 | the result is `Run` of the query as it was before the call, and the select expressions become the wildcard-expanded ones |
| Session.SourceTableWellFormed | RecruitQuery/components/session.py:44-54 | the fetched, nested or dummy source table is well formed |
| Session.EmptySourceGivesEmptyTable | RecruitQuery/components/session.py:44-47 | a source that yields no rows gives a table with no rows and the select expressions as written |
| Session.NoSourceRunsOnDummyRow | RecruitQuery/components/session.py:51-54 | without a source the working table is the single row `Dummy Value` under the single field `Dummy Field` |
| Session.WildcardTakesSourceFields | RecruitQuery/components/session.py:49-50 | with a source that has rows, a `*` select list becomes the source's fields, and any other select list is kept |
| Session.FilterSource | RecruitQuery/components/session.py:56-64 | the filter step computes `Filtered`: the rows whose condition holds, or the whole source without a condition; the result is well formed and keeps the source fields |
| Session.FilteredWellFormed | RecruitQuery/components/session.py:57-65 | the filtered table is well formed and keeps the source fields, with or without a condition |
| Session.NoMatchingRowGivesEmptyTable | RecruitQuery/components/session.py:57-67 | when the condition holds for no row, the result is a table with no rows over the (expanded) select expressions |
| Session.EvaluateAndGroup | RecruitQuery/components/session.py:71-88 | the select, order, having and group columns, evaluated over the filtered rows and grouped, are `Grouped`; the order and having token lists are the extracted ones |
| Session.GroupedShape | RecruitQuery/components/session.py:82-88 | there is at least one group, and each is well formed, non-empty and as wide as the evaluated columns without the group columns |
| Session.KeptShape | RecruitQuery/components/session.py:91-96 | the groups kept by the having clause are well formed, non-empty, and narrower by exactly the having tokens |
| Session.OrderedShape | RecruitQuery/components/session.py:99-105 | ordering keeps the number of groups; each stays well formed and non-empty, with the order tokens replaced by the order expressions |
| Session.SelectedShape | RecruitQuery/components/session.py:107-109 | after the select step every group is well formed and non-empty, has one column per select expression, and has as many rows as the ordered group it came from; no group is lost |
| Session.CollectedShape | RecruitQuery/components/session.py:111-115 | after the aggregate collapse every group is still non-empty and one column per select expression wide, and no group is lost |
| Session.ExecuteStages | RecruitQuery/components/session.py:69-127 | the statements after the filter compute `RunStages`: an error when no group is left, otherwise the merged and limited groups |
| Session.NoGroupLeftIffHavingRejectsAll | RecruitQuery/components/session.py:91-118 | the query fails at `res_tables[0]` exactly when a having clause takes part and no group passes it |
| Session.StagesResultShape | RecruitQuery/components/session.py:117-127 | a successful run after the filter gives a well-formed table with one column per select expression |
| Session.ResultShape | RecruitQuery/components/session.py:42-127 | every successful run gives a well-formed table with one column per (expanded) select expression |
| Session.LimitBoundsRows | RecruitQuery/components/session.py:124-125 | a positive limit `L` leaves at most `L` result rows |
| Session.AggregateGivesOneRowPerGroup | RecruitQuery/components/session.py:111-121 | with every non-group select expression aggregated and no having or limit, the result has one row per group, and one row in all without GROUP BY |
| Session.EveryFilteredRowReachesResult | RecruitQuery/components/session.py:84-121 | with no having, no aggregate collapse and no limit, the result has exactly as many rows as the filtered table |
| Pipeline.FilterShape | RecruitQuery/components/session.py:57-67 | the filtered table is well formed, keeps the source fields, holds as many rows as conditions are true, and is empty exactly when none is |
| Pipeline.FilterKeepsTruthyRow | RecruitQuery/components/session.py:61-63 | a row whose condition holds is kept, after exactly the earlier kept rows |
| Pipeline.FilterRowOrigin | RecruitQuery/components/session.py:61-63 | every kept row is a source row whose condition holds, in source order |
| Pipeline.FilterRows | RecruitQuery/components/session.py:57-63 | the append loop builds `Filter` of the source and the condition values |
| Pipeline.StripTrailingShape | RecruitQuery/components/session.py:95 | slicing off the last `k` columns keeps every row, each shortened by its last `k` values |
| Pipeline.HavingKeepsPassingTable | RecruitQuery/components/session.py:93-95 | a group whose having values are all true is kept, without its having columns, after the earlier kept groups |
| Pipeline.HavingTableOrigin | RecruitQuery/components/session.py:93-95 | every kept group is some passing group without its having columns, with all of that group's rows |
| Pipeline.HavingCount | RecruitQuery/components/session.py:91-96 | as many groups are kept as pass, and none is kept exactly when none passes |
| Pipeline.HavingShape | RecruitQuery/components/session.py:91-96 | kept groups are well formed and `k` columns narrower than the input groups, and non-empty when the input groups are |
| Pipeline.HavingFilter | RecruitQuery/components/session.py:91-96 | the having loop builds `Having` of the groups |
| Pipeline.Retoken | RecruitQuery/components/session.py:101 | slicing off the order tokens and chaining the order values keeps the table well formed, its row count and the names of its other columns, and gives it one column per order expression |
| Pipeline.RetokenRows | RecruitQuery/components/session.py:101 | each row keeps its values outside the order tokens and ends with the order expressions' values for that row |
| Pipeline.OrderTableShape | RecruitQuery/components/session.py:101-103 | an ordered group is well formed, keeps its row count and the names of its non-order columns, takes one column per order expression, and its rows are a permutation of `Retoken`'s rows |
| Pipeline.OrderStageShape | RecruitQuery/components/session.py:99-105 | the order stage keeps the number of groups, the group sort permutes the rebuilt groups, and each result group is `w - k` plus one column per order expression wide (non-empty when the inputs are) |
| Pipeline.OrderStageKeepsRows | RecruitQuery/components/session.py:99-105 | the order stage neither loses nor adds rows |
| Pipeline.OrderGroups | RecruitQuery/components/session.py:99-105 | the loop that re-builds and sorts each group, followed by the sort of the groups, computes `OrderStage` |
| Pipeline.SelectShape | RecruitQuery/components/session.py:108-109 | every selected group has one column per select expression and the same number of rows as before |
| Pipeline.SelectKeepsRows | RecruitQuery/components/session.py:108-109 | selecting neither loses nor adds rows |
| Pipeline.SelectColumns | RecruitQuery/components/session.py:108-109 | the select loop computes `Select` |
| Pipeline.NonGroupExprsMembers | RecruitQuery/components/session.py:112 | the aggregate check sees exactly the select expressions that are not group expressions |
| Pipeline.CollapseGroups | RecruitQuery/components/session.py:113-115 | the collapse loop computes `Collapse`: each group keeps only its first row |
| Pipeline.CollapseShape | RecruitQuery/components/session.py:113-115 | collapsing keeps every group's columns and leaves it exactly its first row, so the groups stay well-formed, equally wide and non-empty |
| Pipeline.CollapseRows | RecruitQuery/components/session.py:113-121 | the rows of the collapsed groups, concatenated, are the first rows of the groups, in group order |
| Pipeline.CollapseMerge | RecruitQuery/components/session.py:112-121 | after collapse and merge the result has one row per group, and row `j` is group `j`'s first row |
| Pipeline.MergeTables | RecruitQuery/components/session.py:117-121 | the merge loops build `Merge`: the first group's fields, and the rows of every group in group order |
| Pipeline.AppendRows | RecruitQuery/components/session.py:119-121 | the inner merge loop appends all rows of one group after the merged rows so far |
| Pipeline.MergeRowPlacement | RecruitQuery/components/session.py:117-121 | row `k` of group `j` sits in the merged table right after all rows of the groups before `j` |
| Pipeline.MergeShape | RecruitQuery/components/session.py:117-121 | the merged table has the first group's fields and all rows of all groups, and is well formed when the groups share one width |
| Pipeline.Limit | RecruitQuery/components/session.py:124-125 | the limited table keeps the fields, and its rows are a prefix of the merged rows |
| Pipeline.LimitSpec | RecruitQuery/components/session.py:124-125 | the limit keeps the fields and a prefix of the rows: `min(L, n)` rows for a positive `L`, all but the last `-L` for a negative `L`, and everything when the limit is absent or zero |
| Pipeline.LimitKeepsWellFormed | RecruitQuery/components/session.py:124-125 | the limited table is still well formed |
| Collaborators.EvaluateShape | RecruitQuery/components/session.py:82 | evaluating expressions gives a well-formed table with one column per expression and as many rows as the input |
| Collaborators.SortRowsShape | RecruitQuery/components/session.py:102-103 | sorting a group's rows keeps it well formed, with the same fields and row count |
| Collaborators.SortTablesMembers | RecruitQuery/components/session.py:104-105 | sorting the groups keeps their number and draws every result from the input |
| Tables.ChainRows | RecruitQuery/components/session.py:101 | row `i` of a chained table is row `i` of the first table followed by row `i` of the second |
| Tables.SliceChainRoundTrip | RecruitQuery/components/session.py:101 | slicing a table at column `k` and chaining the two halves gives the table back |
| Tables.TotalRowsPermutation | RecruitQuery/components/session.py:104-105 | reordering a list of groups does not change their total row count |
| Sequences.DedupeSpec | RecruitQuery/components/session.py:30 | de-duplication leaves no duplicates and keeps exactly the elements of its input |
| Tokenizer.Tokenize | RecruitQuery/components/tokenizer.py:8-9 | one token per piece of the split |
| Tokenizer.Split | RecruitQuery/components/tokenizer.py:9 | `split(" ")` always yields at least one piece |
| Tokenizer.TokenizeCases | RecruitQuery/components/tokenizer.py:8-9 | there is one token more than there are spaces; each token is its piece lower-cased when that is a command word, and the piece unchanged otherwise |
| Tokenizer.SplitCount | RecruitQuery/components/tokenizer.py:9 | splitting at single spaces gives one piece more than there are spaces |
| Tokenizer.SplitSpaceFree | RecruitQuery/components/tokenizer.py:9 | no piece contains a space |
| Tokenizer.JoinSplit | RecruitQuery/components/tokenizer.py:9 | joining the pieces with single spaces gives the text back |
| Tokenizer.SplitJoin | RecruitQuery/components/tokenizer.py:9 | splitting space-free pieces joined with single spaces gives the pieces back |
| Tokenizer.TokensSpaceFree | RecruitQuery/components/tokenizer.py:9 | no token contains a space |
| Tokenizer.TokenizeEmpty | RecruitQuery/components/tokenizer.py:9 | the empty query is the single empty token |
| Tokenizer.TokenizeIdempotent | RecruitQuery/components/tokenizer.py:9 | tokenizing the space-joined tokens again gives the same tokens |
| Tokenizer.JoinTokensSameLetters | RecruitQuery/components/tokenizer.py:9 | the joined tokens have the query's length and differ from it only in letter case |
| Tokenizer.JoinTokensNoCommand | RecruitQuery/components/tokenizer.py:9 | when no piece is a command word, the joined tokens are the query itself |

## Left out

- The fetcher and its `github` handle (`session.py:2,35,45`) make network
  calls. `Engine.fetch` models them as a function from a label and the fetch
  keys to a well-formed table.
- A nested `RqSession` source is not re-executed (`session.py:45`). It is
  modelled as its already-computed result table (`Source.Nested`). Errors
  raised inside the nested run are not modelled.
- `expression.py`, `ordering.py`, `table.py` and `definition.py` are not part
  of this model. Their functions are abstract fields of `Engine`, and `Sound`
  states only their shapes. No evaluator, aggregate or sort semantics is
  modelled.
- Collaborators.Sound requires `EvaluateExpressions` to keep the row count on
  every table. The evaluator's own description allows one row for an
  all-aggregate list over an empty table, but the session evaluates only
  tables that have rows.
- Grouping.GenerateGroups: the group order comes from Python 2's
  `dict.values()`, which is unspecified. The model uses first-occurrence
  order and proves only order-independent properties.
- Grouping.GenerateGroups requires `1 <= len(groups) <= len(fields)`.
  - With no groups, `row[-0:]` and `row[:-0]` give the whole row and the
    empty row. The session never calls it without groups.
  - More group columns than fields cannot happen in the session, because the
    evaluated table ends with the group columns.
- Session.FetchKeys: `list(set(...))` has no fixed order. The model keeps
  first occurrences and states only the element set and the absence of
  duplicates.
- Tokenizer.Tokenize lower-cases ASCII letters only. Python's `str.lower`
  also maps other Unicode letters. The command words are a parameter,
  because `definition.py` is not part of this model.
- Grouping.GenerateGroups compares group keys with `Value` equality, which
  stands for Python `==` on key tuples. Python's dict also merges keys that
  are equal across types: `True`, `1` and `1.0`, and in Python 2 `"a"` and
  `u"a"`. Key columns that mix bool, int and float values, or str and
  unicode values, are not modelled, and `Value` has no float.
- Truthiness of arbitrary Python values is not modelled:
  - condition and having values are `bool`;
  - a table is empty exactly when it has no rows;
  - the limit is an integer.
- Tables.Append requires a row as long as the field list. The failure the
  table module raises otherwise (`ShapeMismatch`) is not modelled. In the
  session every appended row comes from a table of the same width.
- The same holds for `Chain` (`RowCountMismatch`). The session only chains
  tables with the same row count.
- Pipeline.CollapseGroups requires every group to have a row, where
  `table[0]` of an empty group would raise. Groups are never empty at that
  point (`Session.CollectedShape`).
- Pipeline.MergeTables requires at least one group. `ExecuteStages` returns
  `Err(NoGroupLeft)` instead, which models the `IndexError` of
  `res_tables[0]`.
- Identity of tables is not modelled. `Copy` and `SetTable` replace a group's
  contents in place, and the model rebuilds the list of groups as values. No
  two groups share storage, so nothing observable is lost.
- Line 115 rebinds the loop variable to the result of `SetTable`. The model
  treats `SetTable` as changing the table in place, so each group keeps only
  its first row. The evidence is line 125, which discards the result of
  `merged_table.SetTable(..)` and relies on the change to `merged_table`.
- Exceptions other than the empty group list are not modelled. These
  include an unknown column in the evaluator and a failing fetch.
