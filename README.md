# Simulated DAS of svp_energy_lab, in Dafny

This project models the simulated data acquisition system (DAS) of
svp_energy_lab. The simulator replays recorded test results instead of
reading a real instrument.

There are three parts.

- **The CSV trial device** (`Lib/svpelab/device_das_sim_csv.py`).
  - It indexes the result files under a base data directory and orders them by the time in their first data row.
  - On every capture it loads the next trial. It keeps the `AC`, `TIME` and event columns and may perturb the `AC` (not `INC`) columns by random factors in [0.9, 1.1]. It drops the leading transient rows.
  - It splits the trial into three FIFO queues:
    - `TR1` and `TR2`: the first row per `TR_1` / `TR_2` event label.
    - `INIT`: the non-transient `Step` rows that occur once, one per label.
  - It then drops the empty queues. A read pops the front of the queue its hint selects.
- **The cursor device** (`Lib/svpelab/device_das_sim.py`).
  - The trial files are listed by name in `CSV_ORDER_NAMES.txt`.
  - `TR1` and `TR2` keep the *last* row per label, and `INIT` is the second row of the file.
  - Reads go through a cursor shared by `TR1` and `TR2`, and the `TR2` row read last is remembered.
- **The DAS driver** (`Lib/svpelab/das_sim.py`).
  - It wires the driver parameters: the data path goes under the files directory and the sample interval is fixed at 50.
  - While capturing, each sample reads one row from the device. The first sample after a trial switch restarts the dataset's `data` table and stores the device's factor table. Later samples append.

Files and modules:

| file | module | contents |
|---|---|---|
| `errors.dfy` | `Errors` | `Fault` (the exceptions the code raises), `Result`, `Outcome`, `Option`, `Slot` (a pandas class stored as a placeholder value) |
| `text.dfy` | `Text` | Python string operations: `in`, `endswith`, `split('/')[-1]`, `replace('\n', '')`, `strip()`, and `os.path.join` with POSIX path rules |
| `frames.dfy` | `Frames` | tables as sequences of rows, boolean-mask filters, `drop_duplicates` with `keep='first'`, `'last'` and `False` |
| `trial_index.dfy` | `TrialIndex` | `find_data_files_name` |
| `csv_segments.dfy` | `CsvSegments` | the value-level steps of the CSV device's `new_csv_dfs` and `data_read` |
| `device_das_sim_csv.dfy` | `DeviceDasSimCsv` | class `Device` of the CSV device |
| `device_das_sim.dfy` | `DeviceDasSim` | class `Device` of the cursor device |
| `das_sim.dfy` | `DasSim` | parameter wiring and class `Das` with `data_sample` |

How tables are modelled:

- A table is `Table(columns, eventColumn, rows)`.
- `columns` are the numeric columns in file order.
- `eventColumn` is the last column of the file. It holds the event label that every row carries as `Row.event`.
- A row's numeric cells are a `map<string, real>`.
- Files on disk are a `map` from path to the `Table` that `pd.read_csv` would return.

How the device classes are modelled:

- The fields the code assigns are class fields. The methods update them with `modifies` frames that name only those fields.
- Each state-changing method is proved against a function or predicate over the old state:
  - `Reloaded` / `Reload`: what `new_csv_dfs` leaves.
  - `Pop` / `Read`: one `data_read`.
  - `Sample`: one `data_sample`.
- The properties are then proved as lemmas about those functions.
- An exception is an `Outcome`/`Result` fault. Assignments the code would have made after the raising statement are not made.

Two proof devices need explaining:

- `CsvSegments.PreparedAs` and `CsvSegments.SegmentedAs` state "this value is `Prepare(...)` / the segmented queues" under a quantifier guarded by a trigger. A proof then unfolds the preparation only where it mentions `Prepare` itself.
- `DeviceDasSimCsv.TrialsWellFormed` says every file on disk is a well-formed table, through the function `TrialAt`.

## Model

| member | source | states |
|---|---|---|
| Text.BaseName | Lib/svpelab/device_das_sim_csv.py:109 | `file.split('/')[-1]` has no slash, is a suffix of the path, and is the whole path or follows its last slash |
| Text.RemoveNewlines | Lib/svpelab/device_das_sim_csv.py:75 | `replace('\n', '')` leaves no line break, keeps every other character with its multiplicity, and leaves a string without line breaks unchanged |
| Text.RemoveNewlinesAppend | Lib/svpelab/device_das_sim.py:89 | removing line breaks from a concatenation removes them from each part, so the kept characters stay in order; with the single-character cases above this fixes the result as `s` with its line breaks deleted |
| Text.StripSpec | Lib/svpelab/device_das_sim_csv.py:85 | `strip()` yields a slice of the name with no white space at either end and only white space cut off around it |
| Text.StripIdempotent | Lib/svpelab/device_das_sim_csv.py:85 | stripping a point name twice gives the same name |
| Text.PathJoin | Lib/svpelab/das_sim.py:69 | POSIX `os.path.join(a, b)` ends with `b`; it is `b` when `b` is absolute, and otherwise extends `a`, with one slash between when `a` does not end in one |
| Text.ContainsAt | Lib/svpelab/device_das_sim_csv.py:84 | `sub in s` holds whenever `sub` occurs at some position of `s` |
| Text.ContainsOccurs | Lib/svpelab/device_das_sim_csv.py:84 | conversely, when `sub in s` holds, `sub` occurs at some position of `s` |
| Frames.Filter | Lib/svpelab/device_das_sim_csv.py:183-184 | boolean-mask indexing keeps exactly the rows that pass the test and never lengthens the table |
| Frames.FilterCount | Lib/svpelab/device_das_sim_csv.py:183-184 | a mask keeps every copy of an accepted row and no copy of a rejected one |
| Frames.FirstIndex | Lib/svpelab/device_das_sim_csv.py:189 | the first row with a label carries it, and no earlier row does |
| Frames.LastIndex | Lib/svpelab/device_das_sim.py:90-92 | the last row with a label carries it, and no later row does |
| Frames.DedupFirstSpec | Lib/svpelab/device_das_sim_csv.py:189-193 | `drop_duplicates(subset=event, keep='first')` keeps only rows of the table, no two with the same label |
| Frames.DedupFirstLabels | Lib/svpelab/device_das_sim_csv.py:189-193 | `keep='first'` keeps every label that occurs |
| Frames.DedupFirstAt | Lib/svpelab/device_das_sim_csv.py:189-193 | each kept row is the first row of the table with its label |
| Frames.DedupFirstInOrder | Lib/svpelab/device_das_sim_csv.py:189-193 | kept rows keep the order of their first occurrences |
| Frames.DedupLastSpec | Lib/svpelab/device_das_sim.py:90-95 | `drop_duplicates(subset=' EVENT', keep='last')` keeps only rows of the table, no two with the same label |
| Frames.DedupLastLabels | Lib/svpelab/device_das_sim.py:90-95 | `keep='last'` keeps every label that occurs |
| Frames.DedupLastAt | Lib/svpelab/device_das_sim.py:90-95 | each kept row is the last row of the table with its label |
| Frames.DedupLastInOrder | Lib/svpelab/device_das_sim.py:90-95 | kept rows keep the order of their last occurrences |
| Frames.FirstIndexFilter | Lib/svpelab/device_das_sim_csv.py:183-190 | when a mask keeps every row of a label, the first such row after masking is the first one before |
| Frames.LastIndexFilter | Lib/svpelab/device_das_sim.py:90-95 | when a mask keeps every row of a label, the last such row after masking is the last one before |
| Frames.DropAllDuplicatesSpec | Lib/svpelab/device_das_sim_csv.py:185-186 | `drop_duplicates(keep=False)` keeps exactly the rows that occur once (whole rows compared), each once |
| Frames.StripEvent | Lib/svpelab/device_das_sim_csv.py:191 | dropping the event column keeps one record per row, holding that row's numeric cells |
| Frames.NumericColumns | Lib/svpelab/device_das_sim_csv.py:179 | in a table with distinct column names the event column (the last) is not among the numeric columns |
| CsvSegments.Project | Lib/svpelab/device_das_sim_csv.py:171-173 | dropping columns keeps the event column and every row, and keeps exactly the numeric columns that pass the test |
| CsvSegments.FilterColumns | Lib/svpelab/device_das_sim_csv.py:171-173 | the column filter keeps exactly the numeric columns whose name contains `AC` or `TIME`, plus the last column, with their cells, and keeps the table well formed |
| CsvSegments.FactorColumns | Lib/svpelab/device_das_sim_csv.py:144-156 | the factor table has a column for every column whose name contains `AC` and not `INC`, or for every column when the table has no rows |
| CsvSegments.FactorColumnsShape | Lib/svpelab/device_das_sim_csv.py:144-156 | the factor columns are in table order; the event column can be among them only as the last one |
| CsvSegments.Scale | Lib/svpelab/device_das_sim_csv.py:177-178 | multiplying some columns keeps the columns, the event column, the number of rows, and each row's label and cell keys |
| CsvSegments.ScaleCell | Lib/svpelab/device_das_sim_csv.py:177-178 | a cell of a named column that has factors becomes the cell times its row's factor; every other cell is unchanged |
| CsvSegments.ScaleStep | Lib/svpelab/device_das_sim_csv.py:177-178 | multiplying one more column after a set of others equals multiplying the larger set |
| CsvSegments.PerturbedSpec | Lib/svpelab/device_das_sim_csv.py:175-178 | the perturbation multiplies exactly the `AC`-not-`INC` cells by a factor in [0.9, 1.1] and passes every other cell and label through; it fails exactly when the event column is such a column |
| CsvSegments.TrimLeading | Lib/svpelab/device_das_sim_csv.py:181-182 | the `while` loop fails only with `IndexError`, when `iloc[0]` reaches an empty table |
| CsvSegments.TrimLeadingSpec | Lib/svpelab/device_das_sim_csv.py:181-182 | the trim fails exactly when every row is transient; otherwise it keeps a suffix starting at a non-transient row and drops only transient rows |
| CsvSegments.InitCandidatesSpec | Lib/svpelab/device_das_sim_csv.py:185-186 | stacking the table with two copies of each transient queue and dropping every duplicated row leaves exactly the non-transient rows that occur once, in table order |
| CsvSegments.StackedOccurrences | Lib/svpelab/device_das_sim_csv.py:185 | each row occurs in the stacked table once per copy in the table plus twice per transient queue holding it |
| CsvSegments.MarkerRowsSpec | Lib/svpelab/device_das_sim_csv.py:183-194 | `TR1`/`TR2` hold only table rows whose label contains the marker, one per label, and every such label |
| CsvSegments.MarkerRowsFirst | Lib/svpelab/device_das_sim_csv.py:183-194 | the `k`-th `TR1`/`TR2` row is the first table row with its label |
| CsvSegments.MarkerRowsNonEmpty | Lib/svpelab/device_das_sim_csv.py:183-184 | a transient queue has rows exactly when some row carries its marker |
| CsvSegments.InitRowsSpec | Lib/svpelab/device_das_sim_csv.py:185-198 | every `INIT` row is a non-transient table row with a `Step` label that occurs once as a whole row; no two `INIT` rows share a label |
| CsvSegments.InitRowsComplete | Lib/svpelab/device_das_sim_csv.py:185-198 | every label of a row eligible for `INIT` is the label of an `INIT` row |
| CsvSegments.InitRowsFirst | Lib/svpelab/device_das_sim_csv.py:185-198 | the `k`-th `INIT` row is the first row with its label among the non-transient rows that occur once (`keep='first'`) |
| CsvSegments.InitRowsNonEmpty | Lib/svpelab/device_das_sim_csv.py:185-198 | `INIT` has rows exactly when some row is eligible for it |
| CsvSegments.Queues.Set | Lib/svpelab/device_das_sim_csv.py:200-202 | writing or popping one key of `self.dfs` leaves the other keys as they were |
| CsvSegments.RemoveEmptySpec | Lib/svpelab/device_das_sim_csv.py:200-202 | a queue survives exactly when it is present, not a placeholder, and has rows and columns; survivors are unchanged |
| CsvSegments.SegmentsKept | Lib/svpelab/device_das_sim_csv.py:183-202 | after segmentation `TR1`, `TR2` and `INIT` are present exactly when the table has columns and the queue has rows |
| CsvSegments.QueueKey | Lib/svpelab/device_das_sim_csv.py:220-229 | a hint containing `TR_2` selects `TR2`; one containing `TR_1` but not `TR_2` selects `TR1`; any other selects `INIT` |
| CsvSegments.Pop | Lib/svpelab/device_das_sim_csv.py:212-233 | a read succeeds exactly when the selected queue is present, loaded and non-empty; it returns the front row and leaves the rest of that queue and the other queues |
| CsvSegments.ReadFifo | Lib/svpelab/device_das_sim_csv.py:212-233 | `n` reads of one queue return its first `n` rows in order and leave the rest, with the other queues untouched |
| CsvSegments.ReadExhausted | Lib/svpelab/device_das_sim_csv.py:212-233 | one read more than a queue holds raises `IndexError` |
| CsvSegments.SetTwice | Lib/svpelab/device_das_sim_csv.py:222 | a second write under a key overrides the first |
| CsvSegments.Prepare | Lib/svpelab/device_das_sim_csv.py:169-182 | the prepared table is well formed; when preparation succeeds its first row is not transient |
| CsvSegments.PrepareFails | Lib/svpelab/device_das_sim_csv.py:175-178 | a perturbation that reaches the event column of a non-empty table raises `TypeError` with the numeric factor columns already multiplied |
| CsvSegments.PrepareTrims | Lib/svpelab/device_das_sim_csv.py:179-182 | once the table is filtered and perturbed, the outcome is that of the trim |
| TrialIndex.Times | Lib/svpelab/device_das_sim_csv.py:107-108 | one first time per file, in order |
| TrialIndex.Scan | Lib/svpelab/device_das_sim_csv.py:102-110 | every time in the order list has a stored name and every stored name's time is in the list |
| TrialIndex.ScanOrder | Lib/svpelab/device_das_sim_csv.py:102-108 | the order list, before sorting, is the first times of the eligible files in `glob` order |
| TrialIndex.ScanLastWins | Lib/svpelab/device_das_sim_csv.py:107-109 | of several eligible files with the same first time, the last one listed gives the stored name |
| TrialIndex.ScanNames | Lib/svpelab/device_das_sim_csv.py:103-109 | every stored name is the last component of an eligible path with that time, ends in `.csv` and does not end in `result_summary.csv` |
| TrialIndex.CsvBaseName | Lib/svpelab/device_das_sim_csv.py:103-109 | the last component of an eligible path is an eligible name |
| TrialIndex.DuplicateTimes | Lib/svpelab/device_das_sim_csv.py:108-109 | two eligible files with the same first time leave the time twice in the order list |
| TrialIndex.TimesCount | Lib/svpelab/device_das_sim_csv.py:107-108 | a time occurs in the list as often as files carry it |
| TrialIndex.Insert | Lib/svpelab/device_das_sim_csv.py:111 | inserting into a sorted list keeps it sorted and adds exactly the new element |
| TrialIndex.FindDataFilesName | Lib/svpelab/device_das_sim_csv.py:95-111 | the order list is sorted ascending and is a permutation of the eligible first times; the names are those of the scan |
| DeviceDasSimCsv.SplitHead | Lib/svpelab/device_das_sim_csv.py:67 | `split(sep)[0]` is the prefix before the first occurrence of the separator |
| DeviceDasSimCsv.BaseDataDirectory | Lib/svpelab/device_das_sim_csv.py:67-68 | the base data directory ends with the folder name and, for a relative folder, starts with the results directory cut after its first `Results` |
| DeviceDasSimCsv.AcPointsSpec | Lib/svpelab/device_das_sim_csv.py:83-85 | the data points after `TIME` are exactly the stripped names of the columns containing `AC` |
| DeviceDasSimCsv.DataPoints | Lib/svpelab/device_das_sim_csv.py:63 | the data points start with `TIME` |
| DeviceDasSimCsv.CollectDataPoints | Lib/svpelab/device_das_sim_csv.py:83-85 | the loop builds the data points of the first trial |
| DeviceDasSimCsv.ColumnFactors | Lib/svpelab/device_das_sim_csv.py:145-153 | a column is removed exactly when the table has rows and its name lacks `AC` or has `INC`; otherwise it gets one factor in [0.9, 1.1] per row |
| DeviceDasSimCsv.ApplyStep | Lib/svpelab/device_das_sim_csv.py:177-178 | one pass of the multiplication loop multiplies one more factor column |
| DeviceDasSimCsv.ApplyFails | Lib/svpelab/device_das_sim_csv.py:177-178 | reaching the event column of a non-empty table means every other factor column is already multiplied and the perturbation fails |
| DeviceDasSimCsv.ApplyDone | Lib/svpelab/device_das_sim_csv.py:177-178 | after the loop the table is the perturbed table |
| DeviceDasSimCsv.EventColumnLast | Lib/svpelab/device_das_sim_csv.py:177-179 | the event column can only be the last factor column |
| DeviceDasSimCsv.TrialAt | Lib/svpelab/device_das_sim_csv.py:169-170 | the table read for a trial is the file's table |
| DeviceDasSimCsv.Device.constructor | Lib/svpelab/device_das_sim_csv.py:60-85 | `test` is -1, `index` 0, the flag false, the queues and factor table placeholders, and the data points those of the first trial |
| DeviceDasSimCsv.Device.Open | Lib/svpelab/device_das_sim_csv.py:60-93 | a missing base directory raises `FileNotFoundError` and one without eligible files `IndexError`; success has a sorted trial index, the earliest trial loaded and its data points; an empty folder name always fails, with `DeviceError` after all of that |
| DeviceDasSimCsv.Device.DataCapture | Lib/svpelab/device_das_sim_csv.py:122-135 | disabled: nothing changes; enabled: `test` grows by one and the trial is reloaded; the flag is set and `index` reset only when the reload succeeds |
| DeviceDasSimCsv.Device.NewCsvDfs | Lib/svpelab/device_das_sim_csv.py:159-202 | a missing trial raises `IndexError` and a missing file `FileNotFoundError`, both changing nothing; otherwise the table is prepared and, on success, segmented with empty queues dropped; on a later fault the queues are unchanged |
| DeviceDasSimCsv.Device.ReadTrial | Lib/svpelab/device_das_sim_csv.py:169-202 | for a trial file that exists, the same outcome as `NewCsvDfs` |
| DeviceDasSimCsv.Device.LoadTrial | Lib/svpelab/device_das_sim_csv.py:169-182 | the working table is the prepared trial; factors are drawn and kept only when `use_rand_factors` is `Enabled`, otherwise the old factor table stays |
| DeviceDasSimCsv.Device.BuildQueues | Lib/svpelab/device_das_sim_csv.py:183-202 | the queues are the segments of the table with the empty ones dropped |
| DeviceDasSimCsv.Device.DropColumns | Lib/svpelab/device_das_sim_csv.py:171-173 | the loop leaves the column-filtered table |
| DeviceDasSimCsv.Device.GenerateRandFactorsDf | Lib/svpelab/device_das_sim_csv.py:137-157 | the factor table has the factor columns of the table, one factor in [0.9, 1.1] per row |
| DeviceDasSimCsv.Device.ApplyRandFactors | Lib/svpelab/device_das_sim_csv.py:175-178 | the loop leaves the perturbed table and fails with `TypeError` exactly when the perturbation reaches the event column |
| DeviceDasSimCsv.Device.DropLeadingTransients | Lib/svpelab/device_das_sim_csv.py:181-182 | the loop leaves the trimmed rows, or raises `IndexError` with no rows left |
| DeviceDasSimCsv.Device.RemoveEmptyQueues | Lib/svpelab/device_das_sim_csv.py:200-202 | the loop pops exactly the empty queues |
| DeviceDasSimCsv.Device.DataRead | Lib/svpelab/device_das_sim_csv.py:212-233 | a read returns what `Pop` returns and leaves its queues; a failed read changes nothing |
| DeviceDasSimCsv.Device.GetRandFactorsDf | Lib/svpelab/device_das_sim_csv.py:204-210 | the factor table returned has every factor in [0.9, 1.1] |
| DeviceDasSim.LastMarkerRowsSpec | Lib/svpelab/device_das_sim.py:90-95 | `TR1`/`TR2` hold only rows whose ` EVENT` contains the marker, one per label, and every such label |
| DeviceDasSim.LastMarkerRowsLast | Lib/svpelab/device_das_sim.py:90-95 | the `k`-th `TR1`/`TR2` row is the last row of the file with its label |
| DeviceDasSim.Split | Lib/svpelab/device_das_sim.py:89-96 | `df` is always replaced; no ` EVENT` column raises `KeyError` with the queues unchanged; otherwise `TR1`/`TR2` are replaced, and `INIT` becomes row 1 or, with fewer than two rows, `IndexError` leaves it as it was |
| DeviceDasSim.Device.ReloadPasses | Lib/svpelab/device_das_sim.py:88-96 | a reload that succeeds read the `test`-th listed file, so `test` is below the number of names; `INIT` is exactly its row 1 |
| DeviceDasSim.Read | Lib/svpelab/device_das_sim.py:97-125 | `init` returns `INIT` after a switch and the remembered `TR2` row otherwise; only a successful `TR2` read moves the cursor (by one) and the remembered row (to the row read); `TR1`/`TR2` read their table at the cursor, with `TypeError` on a placeholder and `IndexError` past the end; any other type returns the placeholder |
| DeviceDasSim.ReadsTR2 | Lib/svpelab/device_das_sim.py:104-107 | `n` `TR2` reads return the `TR2` rows from the cursor on in order, advance it by `n` and remember the last row read |
| DeviceDasSim.ReadTR2Exhausted | Lib/svpelab/device_das_sim.py:104-107 | a `TR2` read past the end raises `IndexError` and moves nothing |
| DeviceDasSim.InitRepeatsLastTR2 | Lib/svpelab/device_das_sim.py:99-107 | with no new trial pending, `init` after `TR2` reads returns the last `TR2` row again |
| DeviceDasSim.ReadsAppend | Lib/svpelab/device_das_sim.py:97-125 | reads of two series in a row are the reads of the first, then of the second from the state the first left |
| DeviceDasSim.TR1SharesCursor | Lib/svpelab/device_das_sim.py:108-109 | a `TR1` read uses the shared cursor and moves nothing |
| DeviceDasSim.Device.InitAfterSwitch | Lib/svpelab/device_das_sim.py:99-101 | in a valid state right after a trial switch, `data_read('init')` returns a loaded row, never the placeholder |
| DeviceDasSim.Device.constructor | Lib/svpelab/device_das_sim.py:47-62 | `test` is -1, `index` 0, the flag false, and the table, queues and remembered row placeholders |
| DeviceDasSim.Device.Open | Lib/svpelab/device_das_sim.py:47-69 | no path fails in the join with `TypeError`, a missing order file raises `FileNotFoundError`, an empty path `DeviceError('No data file specified')` after the order file is read; success holds the file's lines |
| DeviceDasSim.Device.DataCapture | Lib/svpelab/device_das_sim.py:80-86 | disabled: nothing changes; enabled: `test` grows by one and the trial is reloaded; the flag is set and `index` reset only when the reload succeeds |
| DeviceDasSim.Device.NewCsvDfs | Lib/svpelab/device_das_sim.py:88-96 | the table and queues become what `Reload` gives for the current trial |
| DeviceDasSim.Device.DataRead | Lib/svpelab/device_das_sim.py:97-125 | the result, cursor and remembered row are those of `Read`; nothing else changes |
| DasSim.DataFilesPath | Lib/svpelab/das_sim.py:67-69 | the path goes under the files directory exactly when it is given, non-empty and not `'None'`; it is otherwise passed on unchanged |
| DasSim.WireParams | Lib/svpelab/das_sim.py:65-76 | the sample interval is always 50; the other parameters are passed through, the path as `DataFilesPath` gives it |
| DasSim.Take | Lib/svpelab/das_sim.py:92-98 | the record becomes the last record and the flag is cleared; after a switch `data` is that one record, otherwise it grows by it at the end |
| DasSim.TakeAllData | Lib/svpelab/das_sim.py:91-98 | after a switch, `data` is exactly the records taken since, in order; without one they are appended; the last record is the last taken |
| DasSim.SampleAllReads | Lib/svpelab/das_sim.py:91-98 | a series of capturing samples succeeds exactly when the same series of device reads does, fails with its fault, and takes its rows in order |
| DasSim.SamplesAfterSwitch | Lib/svpelab/das_sim.py:91-98 | after a switch, samples from one queue make `data` exactly the queue's first rows, in order |
| DasSim.Das.constructor | Lib/svpelab/das_sim.py:65-82 | the driver starts not capturing, with no record and an empty `data` table |
| DasSim.Das.DataSample | Lib/svpelab/das_sim.py:87-99 | not capturing: returns the last record and changes nothing; capturing: the read's record becomes the last record and is returned, `data` restarts or grows per `Sample`, the factor table is stored and the flag cleared only after a switch; a failed read changes nothing |

## Left out

- File-system access (`os.chdir`, `glob`, `open`, `readlines`, `pd.read_csv`) is not modelled.
  - Its results are inputs: the listing per directory, the lines of each order file, the table per path.
  - Parsing the first time out of line 1 of each file (`float(lines[1].split(',')[0])`) is not modelled. Each file comes with its first time.
- `Text.PathJoin` models POSIX `os.path.join`: it joins with `/`, and a path is absolute only when it starts with `/`. The code is written for Windows (`split('Results\\')`, the `glob` pattern `**\*.csv`). There `os.path.join` joins with `\`, and it also treats drive letters and `\`-rooted paths as absolute. The model loses drive letters and backslash separators.
- `Text.BaseName` splits only at `/`, as `file.split('/')[-1]` does. It does not model a Windows `glob`, which returns backslash paths that this split leaves whole. Listings are taken as `/`-separated.
- `random.uniform` is a nondeterministic choice in [0.9, 1.1]. Floating point is `real`, so the multiplication is exact.
- NaN cells, pandas dtypes and the index reset by `reset_index` are not modelled. A table's row order is its index.
- The event column is always the file's last column, and every row has a label.
  - The cursor device looks the column up by the name ` EVENT`.
  - A file whose last column is not ` EVENT` raises `KeyError`. When ` EVENT` is one of the numeric columns, pandas would raise `AttributeError` at `.str`; the model reports `KeyError` for that case too.
- `DasSim.Das`: the driver as written constructs `device_das_sim.Device` (Lib/svpelab/das_sim.py:80). That class has no `get_rand_factors_df`, and only `device_das_sim_csv.Device` has one. The model places the driver over the CSV device, whose reads return records. The CSV device needs the `use_rand_factors` and `Base_data_folder_name` parameters, which the driver does not set.
- `DasSim.Das`: pandas `DataFrame.append` was removed in pandas 2. The model appends the record as the source intends.
- The base class `das.DAS` is not part of this model.
  - `_capture`, `_last_datarec` and `_ds.df` are plain fields.
  - Parameter registration (`params`), `_param_value` (the test script's lookup), `_init_sc_points` and logging are left out.
- Fields the core stores but never reads are left out:
  - the CSV device: `params`, `ts`, `sample_interval`, `TR_turn`;
  - the cursor device: `points`, `sample_interval`, and `data_points`, which stays `[]`.
- `info`, `open`, `close` and the cursor device's waveform methods do nothing and are left out.
- The queue names `'TR1'`, `'TR2'`, `'INIT'` of the CSV device's dictionary are the enumeration `QueueName`.
- For an unknown read type, and for `init` before any `TR2` read, the cursor device returns a pandas placeholder class. The model returns `Placeholder`; what a caller does with it is not modelled.
