# Gerrit log metrics engine, in Dafny

This project models the metrics engine of `GerritLogParser.py`. The engine takes a
batch of Gerrit change records and flattens it into one row per (file, inline
comment), with a single blank row for a file nobody commented on. It can drop
a change owner's comments on their own change and drops files matching an
exclusion pattern. It then reduces the rows two ways:

- the **file report** has one record per (project, file) group. A record holds
  the modification count, the net line delta, the comment count and text, the
  owners, and the optional subject-derived columns;
- the **subject report** has one record per change that keeps rows. A record
  holds line totals, a subtotal for paths containing `robot`, rendered
  comments, reviewers and the kept files.

The project also models how the `gerrit query` command line is composed from
the configured search operators. It models how a metric section's column
lists and self-comment switch are read.

The model is purely functional: immutable datatypes and total functions over
sequences. Regular expressions are uninterpreted parameters: `string -> bool`
for the exclusion filter and the counting columns, and `string -> Option<string>`
(the named group's text) for the extracting columns. The current date is a day
ordinal plus a renderer for a day's midnight. The change's `lastUpdated` is
rendered by a `showTime` parameter. No clock, file or network is involved.

Modules, one per file:

| file | module | content |
|---|---|---|
| results.dfy | `Results` | `Option`, `Result`, and the failures the source raises |
| seqs.dfy | `Seqs` | `Filter`, `Map`, `Sum`, `Image`, `Distinct` and their algebra |
| text.dfy | `Text` | `Join`, `Split`, `Lower`, substring test, integer parsing and printing |
| records.dfy | `Records` | changes, files, comments, rows, configuration |
| normalizer.dfy | `Normalizer` | the row normaliser and the self-comment filter |
| file_filter.dfy | `FileFilter` | the exclusion filter |
| file_metrics.dfy | `FileMetrics` | join, grouping and per-(project, file) reduction |
| subject_metrics.dfy | `SubjectMetrics` | per-change reduction and the subject table |
| query_command.dfy | `QueryCommand` | the query command builder |
| columns.dfy | `Columns` | column-list and boolean parsing |

Line counts are modelled as the source reads them. A `"-"` count is the
`Dash` constructor and resolves to 0 when a row is made. As in the source,
a file with several comments repeats its line counts on every row. The sums
count those repeats, and `files_num` counts rows, not distinct files.

## Model

| member | source | states |
|---|---|---|
| Normalizer.AllComments | GerritLogParser.py:233-238 | The gathered comments number the sum of the per-patch-set counts; every patch set's comment is present and nothing else is. A single patch set gives exactly its own comment list, in order and with repeats; with AllCommentsAppend this fixes the whole result. |
| Normalizer.AllCommentsAppend | GerritLogParser.py:235-237 | Gathering over two runs of patch sets is the concatenation of gathering over each, so patch-set order is kept. |
| Normalizer.HitsMeaning | GerritLogParser.py:259-267 | The inner loop builds exactly one row per comment whose file equals the path, in comment order, each the file's row carrying that comment's message and reviewer. |
| Normalizer.FileRows | GerritLogParser.py:248-272 | A file yields one row per matching comment, or exactly one row when none matches. Every row carries the change's id and owner, the path, and the counts with `-` resolved to 0. Comment and reviewer are the i-th matching comment's. The lone row of an uncommented file has empty reviewer and comment. |
| Normalizer.FilesRows | GerritLogParser.py:248-272 | A change's files yield at least one row each, all carrying the change's id and owner. |
| Normalizer.FilesRowsAppend | GerritLogParser.py:248 | Files are processed independently and in order: the rows of two file lists are the concatenation of each list's rows. |
| Normalizer.NormalizeBelongs | GerritLogParser.py:246-274 | Every row of the normalised table belongs to a change of the batch. |
| Normalizer.NormalizeAppend | GerritLogParser.py:247 | Changes are processed independently and in order: normalising two batches is the concatenation of normalising each. |
| Normalizer.NormalizeLayout | GerritLogParser.py:246-272 | The fan-out of file j of change k sits in the table exactly after the rows of the earlier changes and of that change's earlier files, and before everything else; nothing is dropped or reordered. |
| Normalizer.DropSelfComments | GerritLogParser.py:275 | Disabled, the rows are unchanged. Enabled, the kept rows are rows whose owner differs from the reviewer, every such row is kept, and the result is never longer than the input. |
| Normalizer.DropSelfCommentsAppend | GerritLogParser.py:275 | The filter works row by row: filtering a concatenation is concatenating the filtered parts, so order and repeated rows are kept. |
| Normalizer.DropSelfCommentsKeepsClean | GerritLogParser.py:275 | Rows none of which is a self-comment pass unchanged, repeats included. |
| Normalizer.SelfCommentedFileVanishes | GerritLogParser.py:259-275 | A file whose matching comments are all by the owner contributes no row at all once self-comments are dropped. |
| Normalizer.BlankRowSurvives | GerritLogParser.py:269-275 | The blank row of an uncommented file survives the self-comment filter unless the owner's name is empty. |
| FileFilter.FilterFiles | GerritLogParser.py:217-222 | The result has no excluded file, comes from the input, and keeps every row whose file is not excluded. |
| FileFilter.FilterFilesIdempotent | GerritLogParser.py:166-198 | Filtering twice is filtering once, so the re-filter inside the per-change reduction changes nothing. |
| FileFilter.FilterFilesKeepsClean | GerritLogParser.py:198 | Rows none of which is excluded pass the filter unchanged. |
| FileFilter.FilterFilesAppend | GerritLogParser.py:222 | The filter works row by row: filtering a concatenation is concatenating the filtered parts. |
| FileMetrics.Lookup | GerritLogParser.py:109 | The join finds a change exactly when the row's id is one of the batch's ids, and the change found has that id. |
| FileMetrics.Attach | GerritLogParser.py:106-109 | When every row's change is in the batch, the join keeps every row, in order, each with its change's project, subject and owner. |
| FileMetrics.Keys | GerritLogParser.py:110 | The group keys are distinct, cover every row, and each names a non-empty group. |
| FileMetrics.ColumnFor | GerritLogParser.py:136-145 | A column fails exactly when it has no pattern and the group has a row. A `_num` column counts the group rows whose subject matches. Any other column is text without a colon. |
| FileMetrics.ExtractedColumnLines | GerritLogParser.py:142-145 | An extracting column has one line per row, in row order: the named group's text without colons, or an empty line when the subject does not match. |
| FileMetrics.OptionalColumns | GerritLogParser.py:136-145 | The optional part of a record fails exactly when the group has a row and some configured column lacks a pattern. Otherwise it has exactly the configured columns, each with that column's value. |
| FileMetrics.TotalsOwners | GerritLogParser.py:117-119 | The owners accumulated over a group are the set of the rows' owners. |
| FileMetrics.TotalsComments | GerritLogParser.py:121-124 | The comments accumulated over a group are the non-empty comments, in row order. |
| FileMetrics.TotalsLines | GerritLogParser.py:127 | The net line delta of a group is the sum of insertions minus the sum of deletions. |
| FileMetrics.FileRecordOf | GerritLogParser.py:115-134 | A record carries its group's project and file. modification_times is the row count. comments_num is at most that. owners_num is the size of the owner set, at most the row count and at least 1 for a non-empty group. The optional columns are exactly those configured, each holding that column's value over the group. |
| FileMetrics.FileRecordMeaning | GerritLogParser.py:115-132 | owners is the set of the group's owners. comments_num counts the rows with a non-empty comment, and comments joins those comments with newlines. modification_lines is total insertions minus total deletions. |
| FileMetrics.CommentsSplitBack | GerritLogParser.py:129 | When no comment spans lines, a record's comment text splits back into exactly the group's comments. |
| FileMetrics.Tabulate | GerritLogParser.py:110 | One record per group key, in key order. Each record has its key's project and file and its group's row count, and is the reduction of that group. |
| FileMetrics.FileTable | GerritLogParser.py:110 | The grouped table fails exactly when there is a row and a column without a pattern. Otherwise its records have distinct (project, file) keys, every row's key has a record, every record's key has a row, every record counts at least one modification, and every record is the reduction of its own key's group. |
| FileMetrics.Reported | GerritLogParser.py:106-108 | The rows the file report reduces all belong to changes of the batch and none is an excluded file. |
| FileMetrics.FileReport | GerritLogParser.py:95-113 | The file report fails when the batch yields no normalised row, because that table has no `owner` column to delete. Otherwise it fails only for a missing optional pattern when some row is reported. On success no excluded file has a record, every reported row's (project, file) pair has one, every record's pair is some reported row's, no two records share a pair, and each record is the reduction of its group of the joined rows. |
| SubjectMetrics.TallySums | GerritLogParser.py:183-196 | The loop's insertions and deletions are sums over all rows; its `ta_` counters are the same sums over the rows whose path contains `robot`. |
| SubjectMetrics.TallyComments | GerritLogParser.py:188-190 | The loop's comments are `reviewer : message` for the rows with a comment, in order; its reviewers are the set of those rows' reviewers. |
| SubjectMetrics.ChangeMetricsOf | GerritLogParser.py:175-215 | modification_lines is insertions minus deletions, and the same holds for the `ta_` fields. comments_num counts the commented rows. reviewers_num is the size of the reviewer set and at most comments_num. files_num is at most the row count, and equal to it when no row is excluded. |
| SubjectMetrics.ChangeMetricsMeaning | GerritLogParser.py:175-212 | Every field of a change's metrics in terms of its rows. Totals and tracked subtotals are sums. comments is the newline join of the rendered comments, and reviewers is the reviewer set. files is the newline join of the kept paths. |
| SubjectMetrics.TrackedWithinTotals | GerritLogParser.py:192-196 | With non-negative line counts, the `robot` subtotals lie between zero and the totals. |
| SubjectMetrics.RecordCountsFiles | GerritLogParser.py:198-202 | A change that keeps at least one row, none of them excluded, counts at least one file. |
| SubjectMetrics.SubjectRows | GerritLogParser.py:165-166 | The rows the subject report groups contain no excluded file. |
| SubjectMetrics.SubjectReport | GerritLogParser.py:151-173 | The subject report fails exactly when the batch yields no normalised row, because that table has no `file` column to filter on. Otherwise it is, in batch order, the record of each change whose id keeps at least one row after filtering: that change's metadata with the metrics of exactly its rows. Every record counts at least one file. |
| QueryCommand.RenderAllOutcome | GerritLogParser.py:63-80 | Rendering fails exactly when no date operator is configured and a `lastdays` value is not an integer, or its window start falls outside the datetime range. Otherwise `lastdays` contributes two parts without a date operator and none with one, and every other operator contributes one. |
| QueryCommand.Query | GerritLogParser.py:49-83 | The command fails exactly on a `lastdays` value that has to be read and is not an integer or leaves the datetime range. Otherwise it is the fixed `query --format=JSON …` prefix, a space, and the rendered parts joined with spaces. |
| QueryCommand.QueryWithDate | GerritLogParser.py:60-80 | With a date operator configured the command never fails, and it is the prefix followed by every operator other than `lastdays`, written in place and separated by spaces. |
| QueryCommand.RenderAllAppend | GerritLogParser.py:63-80 | Operators are rendered independently and in configured order. |
| QueryCommand.RenderWithDate | GerritLogParser.py:64-78 | With a date operator configured, every `lastdays` is dropped and every other operator is written in place: dates as `op:'"value"'`, the rest as `op:value`. |
| QueryCommand.RenderWithoutLastDays | GerritLogParser.py:64-80 | Without `lastdays`, every operator is written in place, one part each, in configured order. |
| QueryCommand.LastDaysExpands | GerritLogParser.py:70-75 | Without a date operator, a `lastdays` value that reads as n, with n days before today's midnight inside the datetime range, is replaced in place by `after` that midnight followed by `before` today's midnight. |
| QueryCommand.RenderOneOutcome | GerritLogParser.py:64-80 | One operator fails exactly when it is a `lastdays` that has to be read and is not an integer, or whose window start falls outside the datetime range. Otherwise `lastdays` yields two parts or none and any other operator one. |
| Columns.ParseColumns | GerritLogParser.py:44-45 | A column list yields at least one name. No name contains a comma, a space or a capital. |
| Columns.ColumnsRejoin | GerritLogParser.py:44-45 | Rejoining the names with commas gives the lower-cased list with its spaces removed. |
| Columns.ColumnsRoundTrip | GerritLogParser.py:44-45 | A comma-separated list of normalised names parses back to exactly those names. |
| Columns.ParseBool | GerritLogParser.py:47 | The switch is true exactly for `1`, `yes`, `true`, `on` and false exactly for `0`, `no`, `false`, `off`, ignoring case. |
| Columns.InitColumns | GerritLogParser.py:43-47 | Reading a section fails exactly on an unreadable switch. Otherwise the columns are the mandatory names followed by the optional ones, at least two and all normalised, and the switch is the parsed value. |
| Text.ParseShowInt | GerritLogParser.py:71 | Integer parsing reads back any printed integer, so every integer `lastdays` value gets past `int()`; whether its window is in range is a separate check. |
| Text.ContainsAt | GerritLogParser.py:138 | Python's substring test (used for `_num` and `robot`) holds exactly when the key occurs at some offset. |
| Text.SplitJoin | GerritLogParser.py:44-45 | Splitting a join of separator-free pieces gives back the pieces. |

## Left out

- The Gerrit SSH client and running the command (GerritLogParser.py:35-37, 88) are network I/O through a foreign library; the command string is the model's output.
- Reading the configuration file and compiling the regular expressions (GerritLogParser.py:24-33) are file I/O and the regex engine; patterns are parameters.
- JSON decoding of the command output and dropping its last line (GerritLogParser.py:89) are library parsing; the model starts from decoded change records.
- A change record missing a field the source reads is not modelled; every record has every field.
- Timestamp rendering (`fromtimestamp`, `strftime`, `utcnow`, `str(datetime)`) depends on the platform clock and time zone; the date is a day ordinal and renderers are parameters.
- CSV writing and logging are output side effects only.
- The order in which `'\n'.join` walks the owner and reviewer sets is unspecified in Python; the model keeps the sets and their sizes.
- The source's `groupby` sorts its keys, so the file report lists records sorted by (project, file); the model lists them in order of first occurrence. Sorting would need an order on strings and changes no record's content.
- FileMetrics.Lookup: the join takes the first change with a row's id, whereas pandas' merge repeats the row once per change sharing that id; a batch with a repeated change id is therefore not modelled faithfully by the file report.
- FileMetrics.FileRecordOf: the optional columns are kept in their own map, so an optional column named like a mandatory one (for example `comments`) does not overwrite the mandatory value as the source's dictionary update would.
- FileMetrics.OptionalColumns: every column is evaluated against the changes' real subjects. The source writes each optional column into the group's frame, so an optional column named `subject` replaces the subjects that every later optional column then matches against; the model does not thread that overwrite through.
- FileMetrics.ColumnFor: a pattern that matches but lacks the column's named group raises in the source; the extractor parameter returns `None` on no match and cannot express that case.
- Text.ParseInt: Python's `int()` also accepts surrounding whitespace; the model accepts only an optional sign followed by digits.
- QueryCommand.Query: `str(datetime)` formatting of the window's ends is the `showMidnight` parameter, and configuration keys are taken as already lower-cased by the configuration reader.
- QueryCommand.RenderOne: `today` is taken to be the day ordinal of a real date (1 to 3652059), as `utcnow()` always gives; the model does not check that.
- FileMetrics.FileReport and SubjectMetrics.SubjectReport: when the batch yields rows but the filters remove all of them, the model returns an empty report; what pandas' `groupby(...).apply` does on such an empty table depends on the pandas version.
- The `last_updated` column of the file report's metadata frame is computed and discarded by the source (GerritLogParser.py:103-104); it is not modelled there.
