# sqlite3-qt DB-API core in Dafny

This project models the self-contained logic of `src/sqlite3_qt/dbapi2.py`, a Python DB-API 2.0
(PEP 249) layer over QtSql's SQLite driver, and proves properties of it. Four pieces are modelled:

- **`Cursor.executescript`** (module `Script`, `script.dfy`): the line-oriented SQL script
  splitter. The script is cut into lines as `str.splitlines` does. Each line is stripped with
  `str.strip` and cut at its first `--`. Empty lines and lines beginning with `DROP` are dropped.
  The other lines gather into a group, and the group closes at a line ending in `;` or beginning
  with `COMMIT`. Each closed group is joined with single spaces and handed to the engine's `exec`
  unless the join is empty. A rejected statement raises `DatabaseError`, and lines after the last
  closing line are never executed. The engine is a parameter
  `engineOk: (seq<string>, string) -> bool`: whether it accepts a statement may depend on the
  statements this script has already executed. The result is the log of statements handed to
  `exec`. The loops are methods (`ReadLine`, `ReadGroup`, `Pass`, `RunScript`) proved against the
  functional splitter (`ScriptStatements`, `Handed`). `RunScript` takes the names under which the
  prefix and suffix tests are called, so the same loops model both the code as written
  (`startsWith`, `endsWith`) and the evident intent (`startswith`, `endswith`).
- **`Cursor.execute` / `Cursor.executemany`** (module `Binding`, `binding.dfy`): the
  `bindValue` calls each makes.
  - `execute` binds the i-th element of a sequence at index i, and each mapping item `(k, v)` at
    `:k`.
  - `executemany` transposes the parameter sets into columns: `zip(*…)` for sequences, and one
    column per key of the first mapping for mappings.
  - `_flag`/`_sflag` become the `Binary` bit they add: set when `memoryview` accepts the value,
    or every value of a column.
  - Whether `prepare` and `exec`/`execBatch` succeed is a parameter.
- **Result fetching** (module `Fetch`, `cursor.dfy`): a `Cursor` class holding the result rows, a
  position and `arraysize`, with `fetchone`, `__next__`, `fetchmany` and `fetchall` as methods
  that move the position the way `QSqlQuery.next()` does.
- **Connection naming** (module `Connections`, `connection.dfy`): the class counter `_cnt` and
  the Qt connection name `con{n}` each `Connection.__init__` takes.

`wrappers.dfy` holds `Option`/`Result`. `values.dfy` holds the SQLite values, rows and the Python
exceptions the core raises.

The docstring of `executescript` (src/sqlite3_qt/dbapi2.py:287-291) says that the statements of
the script are executed. It also says that an implicit `COMMIT` is executed first when autocommit
is `LEGACY_TRANSACTION_CONTROL` and a transaction is pending, and that no other implicit
transaction control is performed. The code issues no such `COMMIT`, and neither does the model
(see "## Left out"). Two behaviours of the splitter go beyond the docstring, and the model follows
the code:

- the splitter also closes a group at a line beginning with `COMMIT`;
- a `DROP` line ending in `;` is dropped from its group but still closes it.

Across the core, errors are raised as `ProgrammingError` when `prepare` fails in `execute` or
`executemany`, and as `DatabaseError` when the engine rejects a statement or the connection cannot
be made. No other exception class of PEP 249 is raised by this code.

## Model

| member | source | states |
|---|---|---|
| Script.SplitLinesFrom | src/sqlite3_qt/dbapi2.py:299 | Defines `str.splitlines` as a scan that carries the current line; its properties are stated by the lemmas `SplitLinesFromNoBoundary`, `SplitLinesFromRoundTrip` and `SplitLinesWhole`. |
| Script.SplitLines | src/sqlite3_qt/dbapi2.py:299 | Defines the lines of the script; `SplitLinesNoBoundary` and `SplitLinesRoundTrip` state what they are. |
| Script.SplitLinesNoBoundary | src/sqlite3_qt/dbapi2.py:299 | No line of `splitlines()` contains a line-boundary character. |
| Script.SplitLinesRoundTrip | src/sqlite3_qt/dbapi2.py:299 | For a script whose only boundaries are `\n`, the lines re-joined with `\n` give back the script, with a final newline added if it lacked one. |
| Script.SplitLinesFromRoundTrip | src/sqlite3_qt/dbapi2.py:299 | The same round trip for `splitlines` resumed partway through a line. |
| Script.SplitLinesWhole | src/sqlite3_qt/dbapi2.py:299 | Text without a line boundary is a single line. |
| Script.StripLeft | src/sqlite3_qt/dbapi2.py:308 | Defines the left half of `str.strip`; `StripLeftSpec` states that it removes exactly the leading whitespace. |
| Script.StripRight | src/sqlite3_qt/dbapi2.py:308 | Defines the right half of `str.strip`; `StripRightSpec` states that it removes exactly the trailing whitespace. |
| Script.Strip | src/sqlite3_qt/dbapi2.py:308 | `str.strip` is the right strip of the left strip; the two lemmas above state what each half removes. |
| Script.StripLeftSpec | src/sqlite3_qt/dbapi2.py:308 | Left stripping removes exactly the leading whitespace: the result is a suffix, everything removed is whitespace, and the result does not start with whitespace. |
| Script.StripRightSpec | src/sqlite3_qt/dbapi2.py:308 | Right stripping removes exactly the trailing whitespace: the result is a prefix, everything removed is whitespace, and the result does not end with whitespace. |
| Script.CutComment | src/sqlite3_qt/dbapi2.py:310 | Defines `split("--", 1)[0]`; `CutCommentSpec` and `CutCommentWhole` state what it keeps. |
| Script.Cleaned | src/sqlite3_qt/dbapi2.py:308-310 | A read line is stripped, then cut at its first `--`; `CleanAllAt`, `CleanAllNoDoubleDash`, `CommentOnlyLineIsBlank` and `CleanedWhole` state the result. |
| Script.CutCommentSpec | src/sqlite3_qt/dbapi2.py:310 | `split("--", 1)[0]` is a prefix without `--`. It is the whole line, or it is followed in the line by `--` and does not end in `-`, so that `--` is the first one in the line and nothing from it onward is kept. |
| Script.CutCommentWhole | src/sqlite3_qt/dbapi2.py:310 | A line without `--` is not cut. |
| Script.StartsWith | src/sqlite3_qt/dbapi2.py:314-321 | Defines the intended `str.startswith`, compared from the front; `StartsWithIsPrefix` states that it is the prefix test. |
| Script.EndsWith | src/sqlite3_qt/dbapi2.py:318 | Defines the intended `str.endswith`, compared from the back; `EndsWithIsSuffix` states that it is the suffix test. |
| Script.StartsWithIsPrefix | src/sqlite3_qt/dbapi2.py:314 | The prefix test used for `startsWith` holds exactly when the argument is a prefix of the line. |
| Script.EndsWithIsSuffix | src/sqlite3_qt/dbapi2.py:318 | The suffix test used for `endsWith` holds exactly when the argument is a suffix of the line. |
| Script.Join | src/sqlite3_qt/dbapi2.py:324 | The single-space join of a group starts with its first line. |
| Script.Kept | src/sqlite3_qt/dbapi2.py:313-315 | A cleaned line joins the group when it is non-empty and begins neither with `--` nor with `DROP`; `KeptLinesKept` and `DropLineClosesGroup` state the consequences. |
| Script.Closes | src/sqlite3_qt/dbapi2.py:318-322 | A cleaned line closes the group when it ends in `;` or begins with `COMMIT`; `FirstCloseIs` and `GroupClosesAt` state where groups close. |
| Script.CleanAll | src/sqlite3_qt/dbapi2.py:306-310 | Cleaning yields one cleaned line per script line. |
| Script.CleanAllAt | src/sqlite3_qt/dbapi2.py:306-310 | The k-th cleaned line is the k-th line stripped and cut at its comment. |
| Script.CleanAllNoDoubleDash | src/sqlite3_qt/dbapi2.py:308-310 | No cleaned line contains `--`. |
| Script.CommentOnlyLineIsBlank | src/sqlite3_qt/dbapi2.py:308-316 | A line that is only a comment after stripping cleans to the empty line. |
| Script.FirstClose | src/sqlite3_qt/dbapi2.py:318-322 | The position of the first closing line is at most the number of lines, and equals it when no line closes (`FirstCloseSpec`). |
| Script.FirstCloseSpec | src/sqlite3_qt/dbapi2.py:318-322 | No line before that position closes a group, and the line at it does. |
| Script.FirstCloseIs | src/sqlite3_qt/dbapi2.py:318-322 | The first closing line is the first line ending in `;` or beginning with `COMMIT`. |
| Script.RunGroups | src/sqlite3_qt/dbapi2.py:302-322 | The groups the nested loops close, reading the remaining cleaned lines with a pending group; `RunIsGroups` states that they are `Groups`. |
| Script.RunFrom | src/sqlite3_qt/dbapi2.py:302-322 | The same, reading by position as the loop methods do; `RunFromIsRunGroups` ties the two. |
| Script.Groups | src/sqlite3_qt/dbapi2.py:303-322 | The closed groups, one per closing line, as a reference definition; `GroupsInOrder`, `GroupsKept` and `GroupClosesAt` state their contents. |
| Script.Statements | src/sqlite3_qt/dbapi2.py:303-327 | The joins of the non-empty groups: the statements the intended splitter executes when the engine accepts them all. `RunIsStatements` ties them to the loops. |
| Script.ScriptStatements | src/sqlite3_qt/dbapi2.py:299-327 | The statements of a script; `ScriptStatementsClean`, `BlankLineContributesNothing` and `UnclosedLinesNeverExecuted` state properties of them. |
| Script.Emit | src/sqlite3_qt/dbapi2.py:324-327 | One closed group gives the statement `" ".join(lines)` unless it is empty; `EmitKeptGroup` states it. |
| Script.EmitAll | src/sqlite3_qt/dbapi2.py:324-327 | The statements of a sequence of groups, in order; `EmitAllKeptGroups` states it. |
| Script.RunFromIsRunGroups | src/sqlite3_qt/dbapi2.py:302-322 | Reading the lines by position, as the loops do, closes the same groups as reading the remaining lines. |
| Script.RunToFirstClose | src/sqlite3_qt/dbapi2.py:306-322 | The inner loop closes the pending group plus the kept lines up to the first closing line, then starts an empty group. When no line closes, nothing is closed. |
| Script.RunIsGroups | src/sqlite3_qt/dbapi2.py:302-322 | The nested loops close exactly the groups of kept lines between consecutive closing lines, in script order. |
| Script.KeptLinesAppend | src/sqlite3_qt/dbapi2.py:313-316 | The kept lines of two runs of lines are the kept lines of each, concatenated. |
| Script.KeptLinesKept | src/sqlite3_qt/dbapi2.py:313-316 | Every kept line is non-empty, is no comment and no `DROP` line, and comes from the script. |
| Script.GroupsKept | src/sqlite3_qt/dbapi2.py:313-316 | Every line of every group is a kept line of the script. |
| Script.FlattenGroupsStep | src/sqlite3_qt/dbapi2.py:303-322 | The lines of the groups are those of the group closed at the first closing line, then those of the groups after it. |
| Script.GroupsInOrder | src/sqlite3_qt/dbapi2.py:303-322 | The groups, in order, followed by the kept lines after the last closing line, are exactly the kept lines of the script. |
| Script.UnclosedTailIsOpenSuffix | src/sqlite3_qt/dbapi2.py:318-330 | The lines after the last closing line form a suffix of the script in which no line closes a group. |
| Script.EmitKeptGroup | src/sqlite3_qt/dbapi2.py:324-327 | A group of kept lines is executed exactly when it is non-empty, as its join. |
| Script.EmitAllKeptGroups | src/sqlite3_qt/dbapi2.py:324-327 | The statements executed for groups of kept lines are the joins of the non-empty groups. |
| Script.RunIsStatements | src/sqlite3_qt/dbapi2.py:302-327 | What the loops execute is the single-space join of each non-empty group, in script order. |
| Script.NoDoubleDashConcat | src/sqlite3_qt/dbapi2.py:324 | Joining two texts without `--` creates no `--` unless a `-` meets a `-` at the seam. |
| Script.JoinNoDoubleDash | src/sqlite3_qt/dbapi2.py:324 | Joining lines without `--` with spaces creates no `--`. |
| Script.JoinNonEmptyClean | src/sqlite3_qt/dbapi2.py:324-327 | Every statement made from groups of kept, comment-free lines is non-empty and contains no `--`. |
| Script.ScriptStatementsClean | src/sqlite3_qt/dbapi2.py:303-327 | Every statement a script executes is non-empty and contains no comment text. |
| Script.RunSkipsBlank | src/sqlite3_qt/dbapi2.py:313-316 | An empty cleaned line changes no group. |
| Script.BlankLineContributesNothing | src/sqlite3_qt/dbapi2.py:313-316 | Removing a blank or comment-only line leaves the executed statements unchanged. |
| Script.RunIgnoresUnclosed | src/sqlite3_qt/dbapi2.py:306-330 | Lines after the last closing line close no group: the StopIteration from `next` ends the script. |
| Script.UnclosedLinesNeverExecuted | src/sqlite3_qt/dbapi2.py:306-330 | Lines after the last closing line are never executed. |
| Script.GroupClosesAt | src/sqlite3_qt/dbapi2.py:318-322 | A group closes exactly at the first closing line, taking the kept lines up to it. |
| Script.DropLineClosesGroup | src/sqlite3_qt/dbapi2.py:313-319 | A `DROP … ;` line is never part of a statement, but it closes the group before it. |
| Script.TrailingCommentKeepsGroupOpen | src/sqlite3_qt/dbapi2.py:308-319 | The comment cut is not stripped again, so `x; -- c` cleans to `x; ` and does not close its group. |
| Script.Handed | src/sqlite3_qt/dbapi2.py:325-327 | The statements handed to `exec`, given the statements this script already executed: never more than there are. The three lemmas below state what they are. |
| Script.HandedIsPrefix | src/sqlite3_qt/dbapi2.py:325-327 | The statements handed to `exec` are a prefix of the script's statements, in order. |
| Script.HandedAcceptsBefore | src/sqlite3_qt/dbapi2.py:325-327 | Every statement handed over but the last was accepted by the engine after the statements before it. |
| Script.HandedStopsAtRejection | src/sqlite3_qt/dbapi2.py:325-327 | Either every statement is handed over, or the last one handed over was rejected after the statements before it, which raises `DatabaseError`. |
| Script.HandedAccepted | src/sqlite3_qt/dbapi2.py:325-327 | An accepted statement is followed by the rest of the script, executed after it. |
| Script.HandedRejected | src/sqlite3_qt/dbapi2.py:325-327 | A rejected statement is the last one handed to `exec`. |
| Script.HandGroup | src/sqlite3_qt/dbapi2.py:324-327 | Handing over one closed group's statement, then the rest: an empty join is skipped, an accepted one is followed by the rest, a rejected one ends the script. |
| Script.StrMethod | src/sqlite3_qt/dbapi2.py:314-321 | Defines the attribute lookup behind `cleanedLine.startsWith`/`endsWith`: `str` has `startswith` and `endswith`, and any other name raises `AttributeError`. `ReadLine`, `ReadGroup` and `ExecuteScriptAsWritten` state what the lookup does to the loops. |
| Script.ReadLine | src/sqlite3_qt/dbapi2.py:307-322 | One pass of the inner loop. With the intended test names it adds the cleaned line to the group when it is kept, reports whether the line closes the group, and stays in step with the group model. A test name `str` lacks raises `AttributeError` at the first test, before the group closes. |
| Script.ReadGroup | src/sqlite3_qt/dbapi2.py:303-322 | The inner loop returns the next closed group and the position after it. If the lines run out first, no further group is ever closed. With a test name `str` lacks, it raises `AttributeError` on its first line and closes nothing. |
| Script.ExecGroup | src/sqlite3_qt/dbapi2.py:324-327 | The join of a closed group is handed to `exec` exactly when it is non-empty, and is rejected exactly when the engine refuses it after the statements already executed. |
| Script.Pass | src/sqlite3_qt/dbapi2.py:302-327 | One pass of the outer loop: the log grows by what `Handed` gives for the group read. The script ends here on a rejection, raising `DatabaseError`, on an unclosed group, or on `AttributeError` from a missing test name. |
| Script.RunScript | src/sqlite3_qt/dbapi2.py:299-332 | With the intended names, the log is `Handed` of the script's statements, and `DatabaseError` is raised exactly when its last statement was rejected. With a name `str` lacks, nothing is executed, and `AttributeError` is raised exactly when the script has a line. |
| Script.ExecuteScript | src/sqlite3_qt/dbapi2.py:299-332 | The statements handed to `exec` are the script's statements up to the first rejected one. `DatabaseError` is raised exactly when one was rejected. |
| Script.ExecuteScriptAsWritten | src/sqlite3_qt/dbapi2.py:313-321 | The same loops calling `startsWith` and `endsWith` execute nothing. Every script with at least one line raises `AttributeError`, and a script without lines completes. |
| Script.CleanedWhole | src/sqlite3_qt/dbapi2.py:308-310 | A line with no outer whitespace and no `--` cleans to itself. |
| Script.SingleStatementLines | src/sqlite3_qt/dbapi2.py:299-310 | A one-line script without outer whitespace or a comment cleans to that one line. |
| Script.SingleStatementScript | src/sqlite3_qt/dbapi2.py:299-327 | Such a script, when it is a kept closing line, executes as exactly that one statement. |
| Script.SingleStatementHasLineAndStatement | src/sqlite3_qt/dbapi2.py:299-327 | Such a script has a line, so the code as written raises on it, and the intended splitter executes it as that one statement. |
| Script.SelectOneIsSingleStatement | src/sqlite3_qt/dbapi2.py:313-321 | `SELECT 1;` is such a script. |
| Script.SelectOneBothWays | src/sqlite3_qt/dbapi2.py:299-332 | With an engine that accepts `SELECT 1;`, the code as written raises `AttributeError` and executes nothing, and the intended code executes the statement and raises nothing. |
| Binding.Keys | src/sqlite3_qt/dbapi2.py:275 | A mapping has one key per item. |
| Binding.IsBuffer | src/sqlite3_qt/dbapi2.py:203-209 | Defines when `memoryview(v)` succeeds in `_flag`, so that `Binary` is added: exactly for byte values. `PositionalBinding` states the flag `execute` binds with. |
| Binding.AllBuffers | src/sqlite3_qt/dbapi2.py:212-218 | Defines when the `memoryview` comprehension of `_sflag` succeeds: every value of the column is a byte value. `ColumnsAgreeWithExecute` states that a column is binary exactly when every binding `execute` would make of its values is. |
| Binding.BindPlan | src/sqlite3_qt/dbapi2.py:237-242 | Defines the bindings `execute` makes; `PositionalBinding`, `NamedBinding` and `NamedPlaceholdersDistinct` state what they are. |
| Binding.BoundValues | src/sqlite3_qt/dbapi2.py:237-239 | Reading a plan's values gives one value per binding. |
| Binding.BoundEntries | src/sqlite3_qt/dbapi2.py:240-242 | Reading a plan's placeholders gives one item per binding. |
| Binding.PositionalBinding | src/sqlite3_qt/dbapi2.py:202-239 | `execute` binds a sequence's i-th element at index i, and the values read back are the sequence. The binary flag is set exactly for byte values. |
| Binding.NamedBinding | src/sqlite3_qt/dbapi2.py:240-242 | `execute` binds each mapping item at `:` followed by its key, in the mapping's order. Reading the placeholders and values back gives the mapping. |
| Binding.NamedPlaceholdersDistinct | src/sqlite3_qt/dbapi2.py:240-242 | Distinct keys get distinct placeholders, so no named binding overwrites another. |
| Binding.Execute | src/sqlite3_qt/dbapi2.py:234-246 | After a successful `prepare`, the bindings follow the plan: positional for a sequence, named for a mapping, none otherwise. A failed `prepare` raises `ProgrammingError` and binds nothing. A failed `exec` raises `DatabaseError`. |
| Binding.Rows | src/sqlite3_qt/dbapi2.py:272 | `zip` receives one item list per parameter set: a sequence's elements, or a mapping's keys. It fails with `TypeError` only when some parameter set is not iterable. |
| Binding.ItemsOf | src/sqlite3_qt/dbapi2.py:272 | What `zip` iterates in one parameter set: a sequence's elements, a mapping's keys, or `TypeError`; `Rows` states it for every set. |
| Binding.MinLen | src/sqlite3_qt/dbapi2.py:272 | `zip` stops at a length no row exceeds. |
| Binding.MinLenAttained | src/sqlite3_qt/dbapi2.py:272 | Some row has exactly that length. |
| Binding.Transpose | src/sqlite3_qt/dbapi2.py:272 | Defines `[list(t) for t in zip(*rows)]`; `TransposeColumns` and `TransposeTwice` state what it holds. |
| Binding.TransposeColumns | src/sqlite3_qt/dbapi2.py:272 | Column i of the transposition holds the i-th item of every row, and every column is as long as there are rows. |
| Binding.TransposeTwice | src/sqlite3_qt/dbapi2.py:272 | Transposing twice gives back every row cut to the shortest row's length. |
| Binding.Subscript | src/sqlite3_qt/dbapi2.py:278 | `v[k]` on one parameter set: a mapping's lookup, `TypeError` on anything else; `Lookup` and `ColumnForMappings` state its results. |
| Binding.Lookup | src/sqlite3_qt/dbapi2.py:278 | `v[k]` on a mapping succeeds exactly when `k` is a key, yields a value stored under `k`, and otherwise raises `KeyError`. |
| Binding.ColumnFor | src/sqlite3_qt/dbapi2.py:278 | `[v[k] for v in params]` has one value per parameter set, each that set's `v[k]`. When it fails, it fails with the error of the first set whose `v[k]` fails. |
| Binding.ColumnForMappings | src/sqlite3_qt/dbapi2.py:278 | Over mappings only, the column can fail only with `KeyError`. |
| Binding.ColumnForMissing | src/sqlite3_qt/dbapi2.py:278 | A mapping without the key makes the column fail. |
| Binding.PositionalColumns | src/sqlite3_qt/dbapi2.py:272-273 | Defines the positional columns of `executemany`; `SequenceColumns` and `ColumnsAgreeWithExecute` state what they bind. |
| Binding.NamedColumns | src/sqlite3_qt/dbapi2.py:275-279 | Defines the named columns, stopping at the first failing key; `MappingColumns`, `MissingKeyRaises` and `NamedColumnsAt` state them. |
| Binding.ManyPlan | src/sqlite3_qt/dbapi2.py:270-279 | Defines what `executemany` binds, laid out by the first parameter set; `SequenceColumns`, `SequenceColumnsNotIterable`, `MappingColumns` and `MissingKeyRaises` state each case. |
| Binding.SequenceColumns | src/sqlite3_qt/dbapi2.py:270-273 | For sequences, `executemany` binds one column per position up to the shortest parameter set. Column i is at index i and holds the i-th item of every set. |
| Binding.SequenceColumnsNotIterable | src/sqlite3_qt/dbapi2.py:272-273 | A non-iterable parameter set makes `zip` raise `TypeError` before anything is bound. |
| Binding.ColumnsAgreeWithExecute | src/sqlite3_qt/dbapi2.py:270-273 | Entry j of column i is the value `execute` would bind at index i for parameter set j. A column is binary exactly when all of those bindings are. |
| Binding.ColumnForKey | src/sqlite3_qt/dbapi2.py:276-279 | When every mapping has key `k`, its column is bound at `:k` and holds each mapping's value for `k`. |
| Binding.MappingColumns | src/sqlite3_qt/dbapi2.py:274-279 | For mappings sharing the first mapping's keys, there is one column per key, in the first mapping's order, and nothing is raised. |
| Binding.MissingKeyRaises | src/sqlite3_qt/dbapi2.py:274-279 | A mapping lacking a key of the first makes `executemany` raise `KeyError`. |
| Binding.BindPositional | src/sqlite3_qt/dbapi2.py:272-273 | The positional `bindValue` loop binds column i at index i, for every column. |
| Binding.NamedColumnsAt | src/sqlite3_qt/dbapi2.py:275-279 | From key i on, the named loop binds the column of key i and then the rest, unless that column fails. |
| Binding.BindNamed | src/sqlite3_qt/dbapi2.py:275-279 | The named `bindValue` loop binds the key columns in order and stops at the first failing `v[k]`, with that error. |
| Binding.ExecuteMany | src/sqlite3_qt/dbapi2.py:265-284 | A failed `prepare` raises `ProgrammingError`. A missing `seq_of_parameters` makes `len` raise `TypeError`. Otherwise the columns follow the first set's layout, an error while binding propagates, and a failed `execBatch` raises `DatabaseError`. |
| Fetch.BatchSize | src/sqlite3_qt/dbapi2.py:364-365 | A size of 0 or less is replaced by `arraysize`; `Cursor.FetchMany` states it. |
| Fetch.Taken | src/sqlite3_qt/dbapi2.py:364-375 | A batch returns the requested count or all remaining rows, whichever is smaller, and never a negative count. |
| Fetch.Consumed | src/sqlite3_qt/dbapi2.py:369-373 | The loop steps over at least the rows it returns and at most the remaining rows. It steps over one extra row exactly when rows remain after the batch. |
| Fetch.AsWrittenBatch | src/sqlite3_qt/dbapi2.py:369-375 | A batch as written is the next rows from the position. The position moves past the batch, and one row further exactly when rows remain after it. |
| Fetch.CorrectedBatch | src/sqlite3_qt/dbapi2.py:369-375 | A corrected batch is exactly the rows the position moves past. It is as large as asked for, unless it reaches the last row. |
| Fetch.DrainCorrectedReadsAll | src/sqlite3_qt/dbapi2.py:364-375 | Repeated corrected `fetchmany` calls return every remaining row, in order. |
| Fetch.DrainAsWrittenSkips | src/sqlite3_qt/dbapi2.py:369-373 | With more than n rows left, `fetchmany(n)` as written returns the next n rows, and the following call starts one row further on. |
| Fetch.DrainAsWrittenBound | src/sqlite3_qt/dbapi2.py:369-373 | Repeated `fetchmany` calls as written never return more than the remaining rows. |
| Fetch.DrainAsWrittenLosesRows | src/sqlite3_qt/dbapi2.py:369-373 | When more than one batch is left, repeated `fetchmany` calls as written return fewer rows than remain. |
| Fetch.ThreeRowsLoseTheMiddle | src/sqlite3_qt/dbapi2.py:369-373 | On three rows, `fetchmany(1)` as written returns rows 0 and 2, and the corrected one returns all three. |
| Fetch.Cursor.constructor | src/sqlite3_qt/dbapi2.py:187-191 | A new cursor is before the first row, with `arraysize` 1. |
| Fetch.Cursor.Advance | src/sqlite3_qt/dbapi2.py:343 | `next()` moves to the next row exactly when there is one, and reports whether it moved. |
| Fetch.Cursor.FetchTuple | src/sqlite3_qt/dbapi2.py:334-337 | The current record is the row last stepped onto. |
| Fetch.Cursor.FetchOne | src/sqlite3_qt/dbapi2.py:339-344 | Returns the next row and advances, or returns `None` and stays put once the rows are exhausted. |
| Fetch.Cursor.Next | src/sqlite3_qt/dbapi2.py:196-200 | Returns the next row and advances, or raises `StopIteration` once the rows are exhausted. |
| Fetch.Cursor.FetchMany | src/sqlite3_qt/dbapi2.py:364-375 | A size ≤ 0 is replaced by `arraysize`. With r rows left and a positive batch size n, returns the next `min(n, r)` rows in order and advances by `min(n + 1, r)`. When `arraysize` is also ≤ 0, it returns no rows and still advances by `min(1, r)`, because `next()` is called before the bound is tested. |
| Fetch.Cursor.FetchManyCorrected | src/sqlite3_qt/dbapi2.py:364-375 | With the bound tested first and a positive batch size n, returns the next `min(n, r)` rows and advances by exactly that many. With a batch size ≤ 0 it returns no rows and does not move. |
| Fetch.Cursor.FetchAll | src/sqlite3_qt/dbapi2.py:377-388 | Returns exactly the remaining rows in order and leaves the cursor exhausted. |
| Connections.Decimal | src/sqlite3_qt/dbapi2.py:539 | `str(n)` is a non-empty string of decimal digits without a leading zero. |
| Connections.DecimalRoundTrip | src/sqlite3_qt/dbapi2.py:539 | Reading the digits back gives the counter value. |
| Connections.ConnectionName | src/sqlite3_qt/dbapi2.py:539 | Defines `f"con{n}"`; `ConnectionNamesDistinct` states that distinct counters give distinct names. |
| Connections.ConnectionNamesDistinct | src/sqlite3_qt/dbapi2.py:539-541 | Different counter values give different Qt connection names. |
| Connections.Registry.constructor | src/sqlite3_qt/dbapi2.py:520 | The counter starts at 0. |
| Connections.Registry.Connect | src/sqlite3_qt/dbapi2.py:539-556 | The counter is incremented on every call, failed or not. The name is `con` followed by the old count. `DatabaseError` is raised when a transaction cannot be started without autocommit, or when the database does not open. |

## Left out

- The QtSql engine (`prepare`, `exec`, `execBatch`, `bindValue`, `QSqlDatabase`, `QSqlQuery`) is
  a foreign library. Its answers are parameters (`engineOk`, `prepareOk`, `execOk`,
  `transactionOk`, `openOk`), and a cursor's result set is a fixed sequence of rows.
- The text of engine error messages is not modelled; only the exception class is.
- Script.ExecuteScript performs no implicit `COMMIT` before the script, like the code. The
  docstring's `LEGACY_TRANSACTION_CONTROL` case cannot arise, because `Connection.autocommit`
  always returns `True` (src/sqlite3_qt/dbapi2.py:514).
- The engine's state from before `executescript` (earlier statements, an open transaction) is
  fixed inside `engineOk`. Only the statements the script itself has executed are passed to it.
- The state Qt is left in after a failure (a half-bound query, a registered but unopened
  database) is not modelled.
- Binding.Execute, Binding.ExecuteMany: `_flag`/`_sflag` are modelled only through the `Binary`
  bit. The `QByteArray` conversion is not modelled: a `memoryview`-compatible value is exactly a
  byte value, and any other value is passed through unchanged.
- Objects with their own `__getitem__`/`__iter__` are not modelled. A parameter set is a
  sequence, a mapping with string keys, or something that is neither and that `zip` cannot
  iterate. Iterable objects of other kinds (a `set`, a generator) are not modelled. Mapping keys are strings, so
  `f":{k}"` is `:` followed by the key.
- Binding.ExecuteMany: `seq_of_parameters` is a list, or absent. A generator or other object
  without `len` (which also raises `TypeError`) is not modelled separately.
- Floating-point values: the modelled SQLite values are NULL, integer, text and blob.
- Fetch.Cursor.FetchMany: `size` is an integer, so `fetchmany(None)` (where `None <= 0` raises
  `TypeError`) is not modelled.
- `row_factory` is not modelled: rows are always tuples of values.
- `Cursor.close`, `description`, `lastrowid` and `rowcount` are left out, because they depend on
  Qt query positioning, `lastInsertId` and `size`.
- `Row` is left out: it is built on a Qt record and its `__hash__` is a stub.
- The connect-options string is left out, because it involves rounding a float timeout.
- `connect` and `_sqlite_version` are left out: the first delegates to the standard `sqlite3`
  module, and the second is a cached Qt query.
- The `NotImplementedError` stubs have no behaviour to model.
- `src/sqlite3_qt/__init__.py` only re-exports names and warns on deprecated ones, so it is not
  part of this model.

## Findings

| source | as written | input that shows it | evidently intended | confidence | as-written member | corrected member |
|---|---|---|---|---|---|---|
| src/sqlite3_qt/dbapi2.py:313-321 | `cleanedLine.startsWith(...)` / `endsWith(...)`: Python's `str` has no such methods, so the first line read raises `AttributeError` before anything is executed | the script `SELECT 1;` | `str.startswith` / `str.endswith`, so the script executes `SELECT 1;` | not executed | Script.ExecuteScriptAsWritten | Script.ExecuteScript |
| src/sqlite3_qt/dbapi2.py:369-373 | `while q.next() and i < size` calls `next()` before testing the bound, so a full batch steps over one extra row that is never returned | three rows `(0,)`, `(1,)`, `(2,)` read with repeated `fetchmany(1)`: the calls return `(0,)`, then `(2,)`, then nothing | test `i < size` first, so that repeated calls return every row (PEP 249 `.fetchmany`) | not executed | Fetch.ThreeRowsLoseTheMiddle | Fetch.Cursor.FetchManyCorrected |
