# Fusion Excel: a Dafny model of the batch fusion pipeline

This project models `fusion_excel`, the engine of the Fusion Excel Tool. The engine takes an input folder, an output file and a mode (`concat` or `merge`) and works in five stages:

1. **Discovery.** The input must be a directory. The candidate files are every `*.csv` entry, then every `*.xlsx` entry, then every `*.xls` entry. An empty candidate list is an error.
2. **Loading.** Each candidate is read in a loop that isolates failures per file.
   - A file whose `Path.suffix`, lower-cased, is `.csv` is read with `pd.read_csv`. It tries cp1252, then utf-8, then latin1, and moves to the next encoding only after a `UnicodeDecodeError`.
   - Every other file gets one `pd.read_excel` call.
   - Any exception becomes the entry `"<name>: <message>"`.
   - One progress notification is queued per file.
3. **Aggregation.** If no table loaded, a `RuntimeError` is raised. If some tables loaded but some files failed, a warning lists the first ten entries, plus a marker when there were more.
4. **Fusion.** `concat` stacks all tables. `merge` folds an outer join left to right, starting from the first table. An exception raised by a join (for example pandas' MergeError when two tables share no column) is not caught: it ends the job before anything is written.
5. **Output.** The writer is chosen by the output file's suffix: `.csv` in any letter case selects `to_csv`, anything else `to_excel`. Both are called without an index. A `ModuleNotFoundError` that mentions openpyxl is replaced by an install hint, any other `ModuleNotFoundError` is re-raised, and any other exception becomes a `RuntimeError` naming the output file.

Modules, one per stage plus shared helpers:

- `Wrappers`, `Strings`, `Paths`: Option/Result, ASCII lower-casing, `join`, substring tests, and `Path.name`/`Path.suffix`.
- `Signals`: the errors the job raises and the notifications it queues.
- `Tables`: tables as column names plus rows that map columns to tagged cells.
- `Discovery`, `Loader`, `Report`, `Combiner`, `Writer`: the five stages.
- `Pipeline`: the whole job, as the method `FusionExcel`, proved against the stage-by-stage function `Run`.

The pandas calls are parameters. These are `read_csv(file, encoding)`, `read_excel(file)`, `merge(left, right, how='outer')` and the table writer. Each is a total function whose result is either a table (for the writer, success) or the exception it raised. `concat` has a concrete model: the result's columns are the union of the inputs' columns, its rows are all input rows in order, and a row gets `Missing` for every column its own table lacks.

`Path.suffix` is modelled exactly: the text from the last dot, provided that dot is neither the first nor the last character of the name. One consequence is that an entry named just `.csv` matches the `*.csv` pattern but is read with `read_excel` (`Discovery.CsvDispatchOfCandidates`).

## Model

| member | source | states |
|---|---|---|
| `Paths.CsvSuffixCharacterised` | fusion_excel.py:89 | `suffix.lower() == ".csv"` holds exactly when the name is longer than four characters and ends with ".csv" in any letter case |
| `Discovery.Glob` | fusion_excel.py:69-71 | every entry a `*<ext>` pattern keeps ends with that extension |
| `Discovery.GlobCount` | fusion_excel.py:69-71 | a glob keeps each matching entry as often as the listing has it, and no other entry |
| `Discovery.CandidatesComplete` | fusion_excel.py:69-71 | each qualifying entry is a candidate exactly as often as it is listed; nothing else is a candidate |
| `Discovery.CandidatesOrdered` | fusion_excel.py:69-71 | the candidate list holds all `.csv` names, then all `.xlsx`, then all `.xls` |
| `Discovery.DiscoverOutcome` | fusion_excel.py:65-74 | a non-directory raises FileNotFoundError "does not exist or is not a directory"; a directory fails with the distinct "No CSV or Excel files found" message exactly when no entry qualifies; otherwise the candidates are returned and are non-empty |
| `Discovery.CsvDispatchOfCandidates` | fusion_excel.py:69-89 | of the discovered names, the CSV branch takes every `*.csv` match except a file named exactly ".csv", and never an `*.xlsx` or `*.xls` match |
| `Loader.ReadWithFallback` | fusion_excel.py:89-99 | the encodings tried are a non-empty prefix of the chain; every one but the last raised a decode error; the outcome is the last try's; the chain stops early only on a non-decode outcome |
| `Loader.CsvChainParses` | fusion_excel.py:89-99 | the chain yields table t exactly when some encoding parses to t and every earlier encoding failed to decode (so the first success is kept) |
| `Loader.Latin1IsLastResort` | fusion_excel.py:94-99 | after cp1252 and utf-8 both fail to decode, all three encodings were tried and the latin1 read's outcome is final |
| `Loader.ReaderDispatch` | fusion_excel.py:89-107 | a CSV file never reaches the Excel reader; any other file is read once by `read_excel`, never through the encoding chain, and a failure becomes `"<name>: <message>"` |
| `Loader.PartitionCount` | fusion_excel.py:104-107 | every file lands in exactly one of `dataframes` and `read_errors`, so the two lengths add up to the file count |
| `Loader.OutcomesAppend` | fusion_excel.py:86-107 | both lists keep file order: the outcomes of earlier files come before those of later files |
| `Loader.LoadedMembership` | fusion_excel.py:104 | a table is in `dataframes` exactly when some file loaded as that table |
| `Loader.ErrorMembership` | fusion_excel.py:106-107 | an entry is in `read_errors` exactly when some file failed with that entry |
| `Loader.LoadedTablesWellFormed` | fusion_excel.py:86-107 | when the readers return well-formed tables, so does every entry of `dataframes`, because each one is a table a reader returned |
| `Loader.LoadAll` | fusion_excel.py:77-113 | for any per-file step (the pipeline passes `FileLoader`, the try/except read of one file), the loop collects each file's table or error entry in file order; the two list lengths add up to the file count; and one progress notification is queued per file |
| `Report.ErrorPreview` | fusion_excel.py:120 | the preview is a prefix of the full newline-joined entry list, and is the full list when there are at most ten entries |
| `Report.WarningShowsFirstTen` | fusion_excel.py:119-125 | with more than ten entries, the warning depends only on the first ten |
| `Report.ShortListShownInFull` | fusion_excel.py:119-125 | with one to ten entries, the warning shows all of them and no truncation marker |
| `Report.LongListTruncated` | fusion_excel.py:119-125 | with more than ten entries, the warning shows exactly the first ten followed by "... and more errors." |
| `Combiner.ParseMode` | fusion_excel.py:133-136 | only "concat" selects concatenation and only "merge" selects merging |
| `Combiner.UnionColumns` | fusion_excel.py:134 | the concatenated columns are distinct and are exactly the columns of some input table |
| `Combiner.StackedRows` | fusion_excel.py:134 | the stacked rows number the sum of the inputs' rows, and each has exactly the result's columns |
| `Combiner.ConcatAll` | fusion_excel.py:134 | the concat result is well formed, its row count is the sum of the inputs' row counts, and its columns are the union of theirs |
| `Combiner.StackedRowAt` | fusion_excel.py:134 | row k of table i lands at position (rows of the tables before i) + k, with a fresh index |
| `Combiner.ConcatKeepsCells` | fusion_excel.py:134 | concatenation keeps every cell of every input row and gives `Missing` in the columns that row's table lacks |
| `Combiner.ConcatOfOne` | fusion_excel.py:134 | concatenating one well-formed table returns that table |
| `Combiner.MergeIsLeftFold` | fusion_excel.py:136-139 | the merge result is the fold that starts from the first table and outer-joins each later table onto the accumulator |
| `Combiner.MergeStopsAtFailure` | fusion_excel.py:136-139 | once a join raises, the merge ends with that exception and the later tables are never joined |
| `Combiner.MergeFailsAtFirstFailingJoin` | fusion_excel.py:136-139 | when the joins before table i succeed and joining table i raises, the merge raises exactly that exception |
| `Combiner.MergeTables` | fusion_excel.py:136-139 | the merge loop computes that fold: the joined table, or the exception of the first join that raises |
| `Combiner.SingleTableFusion` | fusion_excel.py:133-139 | with a single well-formed table, both modes return it unchanged and neither raises |
| `Writer.FormatForCsv` | fusion_excel.py:170-175 | the CSV writer is chosen exactly when the output name is longer than four characters and ends with ".csv" in any case; otherwise the Excel writer is chosen |
| `Writer.WriteErrorKinds` | fusion_excel.py:177-183 | a write fails exactly when the writer raised; a ModuleNotFoundError stays one, replaced by the install hint when it mentions openpyxl; any other failure is a RuntimeError naming the output file and quoting the cause |
| `Pipeline.FusionExcel` | fusion_excel.py:51-188 | the job's result and notifications are those of the stage-by-stage specification `Run` |
| `Pipeline.AfterLoading` | fusion_excel.py:114-188 | with no table loaded, only the progress notifications are queued; otherwise the optional skipped-files warning follows them, then possibly the completion notification, and nothing else; the stage ends with a merge exception exactly when the mode is "merge" and a join raised |
| `Pipeline.Output` | fusion_excel.py:170-188 | the stage succeeds, with the fused table, exactly when the writer returns normally; otherwise it ends with the error the exception translation gives for what the writer raised; the completion notification is appended exactly on success |
| `Pipeline.TotalFailureListsEveryFile` | fusion_excel.py:115-117 | when nothing loads, the RuntimeError details list one entry per candidate file, so "No readable files." never appears |
| `Pipeline.ProgressPerFile` | fusion_excel.py:86-113 | after discovery, the first notifications are one progress (i, n) per file, in order |
| `Pipeline.WarningIffPartialFailure` | fusion_excel.py:115-125 | the skipped-files warning is queued exactly when some files loaded and some did not |
| `Pipeline.SuccessfulRun` | fusion_excel.py:133-188 | a successful run fused the loaded tables in the chosen mode, wrote the result once without an index using the writer its suffix selects, and ended by reporting completion |
| `Pipeline.MergeFailureEndsRun` | fusion_excel.py:136-139 | the run ends with the merge's exception exactly when the mode is "merge", some table loaded and a join raised; such a run's result is the same whatever the writer does, so nothing is written, and no completion is reported |
| `Pipeline.SingleTableModesAgree` | fusion_excel.py:133-139 | with readers that return well-formed tables and exactly one loaded table, "concat" and "merge" give the same run: the same result, write and notifications |
| `Pipeline.UnknownModeFailsAfterLoading` | fusion_excel.py:133-168 | a mode other than "concat" or "merge" fails with an unbound `fusion`, and it does so exactly when discovery succeeded and some table loaded |

## Left out

- The Tk user interface: widgets, message boxes, `show_preview`, status and label texts, and the `root.after` marshalling. Progress, warning and completion are returned as a list of notifications instead.
- The worker thread and the one-job-at-a-time discipline in `run_fusion`/`safe_fusion`. This is concurrency on the caller's side.
- `save_config`/`load_config`. This is JSON persistence outside the engine.
- The behaviour of pandas itself: CSV/Excel parsing, dtype inference, the messages of its exceptions, and the cell-level semantics of `pd.merge`. The outer join is a given function that returns a table or raises, so neither merging on the implicit common-column key nor a write-then-reload round trip is stated.
- `Combiner.ConcatAll`: column order is modelled as order of first appearance. No claim about pandas' column order is made or proved, and dtype changes caused by missing values are not modelled.
- The filesystem. The directory test and listing are a given `Listing`, and the readers receive the entry name rather than the full path. The writer receives the output path as given. Glob matching is exact, case-sensitive suffix matching; Windows' case-insensitive matching is not modelled.
- `Strings.Lower` lower-cases ASCII letters only. No other character lower-cases to one of ".csv", so the suffix tests are unaffected.
- `Paths.BaseName` splits on '/' only. Windows separators and trailing-separator normalisation are not modelled.
