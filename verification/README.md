# Interrupt snapshots to a per-CPU time series

This project models `scripts/parse_interrupts.py` in Dafny. The script reads
a capture file of repeated, timestamped copies of `/proc/interrupts` and
writes a JSON document for charting: a time axis `labels` and one series per
CPU holding the number of interrupts that CPU took in each interval.

The model follows the script step by step:

- `Pipeline.Records` cuts the capture at every `##TIMESTAMP## ` marker and
  drops the text before the first one.
- `Snapshots.ReadSnapshot` reads one record. The first line is the timestamp.
  The CPU count is the number of `CPU` occurrences in the second line. The
  per-CPU totals are summed over every IRQ line that matches.
- `Snapshots.Advance` is the rest of `format_line`. The first usable snapshot
  is the baseline: it yields no row and clears the anchor `t0`, so the second
  snapshot is time zero. Each later snapshot yields one CSV row: elapsed
  seconds, then current minus previous total for each CPU, unclamped.
- `Pipeline.Run` threads the state from record to record. Any error aborts.
- `Csv.CsvToJson` turns the rows into one series per count column, labelled
  `cpu0`, `cpu1`, ….
- `Pipeline.OutputPath` swaps every `data/raw` for `data/final` and appends
  `.json`.

The module-level `t0` and the `prev_interrupts` argument become an explicit
`Snapshots.State`. In it, `None` stands for `t0 == -1` and for the value
`False`. The script runs under Python 2 (`#!/usr/bin/python`), so `map` gives
a list. A totals value counts as present only when it is a non-empty list
(`Snapshots.Truthy`). Strings are `seq<char>`. Python's `str.split`,
`str.count`, `str.replace` and `sep.join` are defined in `Text` from a
leftmost-occurrence search, with lemmas relating them.

Two parts of a record are read by functions passed in as parameters:

- `TimeParser` stands for `datetime.strptime`. It returns whole seconds, or
  `None` where strptime would raise.
- `Matcher` stands for the IRQ-line regular expression built for `n` CPUs.
  It returns exactly `n` counts for a line it matches.

The pattern for `n` CPUs has `n + 1` groups. The regular-expression compiler
of Python 2.7 refuses a pattern of more than 100 groups
(`Snapshots.MaxGroups`), and it counts group 0, the whole match, among them.
The pattern is compiled only when a record has a line after its header, so
such a record fails with `TooManyGroups` once the header announces 99 or more
CPUs.

The intermediate CSV text is represented by its rows (`Csv.Row`). The places
where `csv_to_json`'s `int()` calls reject a field are explicit errors:

- a row with no counts ends in an empty field;
- a time of 10^6 seconds or more in magnitude (timestamps can go backwards) is
  written by `'%g'` in exponent form;
- a later row wider than the first indexes past the columns.

Where the code and its docstring disagree, the model follows the code.
`labels` lacks the first row's time, and a capture with a single snapshot
gives no series at all rather than empty ones. The corrected reshaping is
modelled beside the as-written one (see Findings).

## Model

| member | source | states |
|---|---|---|
| Text.Split | scripts/parse_interrupts.py:98 | `s.split(sep)`: at least one piece; joining the pieces with `sep` gives back `s`; no piece contains `sep` |
| Text.SplitLeftmost | scripts/parse_interrupts.py:98 | every cut of `s.split(sep)` is at the leftmost occurrence of `sep` in the text that remains, which fixes the pieces even for a separator that overlaps itself |
| Text.SplitCount | scripts/parse_interrupts.py:23 | the number of pieces of `s.split(sep)` is one more than the number of non-overlapping occurrences of `sep` (`str.count`) |
| Text.CountZero | scripts/parse_interrupts.py:23 | the occurrence count is zero exactly when `sep` does not occur |
| Text.ReplaceJoinsSplit | scripts/parse_interrupts.py:112 | `s.replace(old, new)` equals `new.join(s.split(old))` |
| Text.ReplaceLength | scripts/parse_interrupts.py:112 | each replacement changes the length by `len(new) - len(old)` |
| Text.ReplaceAbsent | scripts/parse_interrupts.py:112 | a string without `old` comes back unchanged |
| Text.DecimalRoundTrip | scripts/parse_interrupts.py:84 | the decimal rendering of a CPU index reads back as that index |
| Csv.CpuLabelsDistinct | scripts/parse_interrupts.py:84 | different CPU indexes get different `cpu<i>` labels |
| Snapshots.CpuCount | scripts/parse_interrupts.py:23 | `len(header.split('CPU')) - 1` is the number of non-overlapping `CPU` occurrences in the header |
| Snapshots.ZipAdd | scripts/parse_interrupts.py:37 | zip-and-add has the shorter operand's length, and entry i is the sum of the two entries i |
| Snapshots.ZipSub | scripts/parse_interrupts.py:40 | zip-and-subtract has the shorter operand's length, and entry i is current minus previous, unclamped |
| Snapshots.SumInterrupts | scripts/parse_interrupts.py:24-37 | the totals are absent exactly when no line matches; otherwise they have one entry per CPU, each the running value plus that CPU's count summed over the matching lines (`ColumnSum`); non-matching lines change nothing |
| Snapshots.ReadSnapshot | scripts/parse_interrupts.py:17-37 | a record fails with BadTimestamp when its first line is no timestamp, with MissingHeader when it has no second line, and with TooManyGroups when it has a line after the header and the header announces 99 or more CPUs; otherwise its time is the parsed timestamp and its totals are the per-CPU sums over the IRQ lines after the header, of width equal to the header's `CPU` count, absent exactly when no line matches |
| Snapshots.GroupLimitThreshold | scripts/parse_interrupts.py:28-29 | the IRQ-line pattern is first refused for a header announcing 99 CPUs, not for one announcing 98 |
| Snapshots.Advance | scripts/parse_interrupts.py:39-45 | without present previous totals: no row, anchor cleared, own totals handed on; with them: error NoInterrupts exactly when the current totals are absent, else one row whose time is measured from the anchor (set to this snapshot's time if unset, as at lines 19-20) and whose deltas are current minus previous per CPU |
| Snapshots.UnchangedTotalsZeroRow | scripts/parse_interrupts.py:40 | totals equal to the previous ones give an all-zero row, one entry per CPU |
| Csv.Times | scripts/parse_interrupts.py:72-74 | the time column has one entry per row, in row order |
| Csv.ColumnOfUniform | scripts/parse_interrupts.py:75-78 | when every row has a c-th count, column c holds exactly those counts in row order |
| Csv.AppendRows | scripts/parse_interrupts.py:72-78 | the loop over the later rows succeeds exactly when each has a time `int()` accepts and between one and as many counts as there are columns; it then appends their times to `times` and their c-th counts to column c |
| Csv.CsvToJson | scripts/parse_interrupts.py:66-88 | succeeds exactly on convertible rows (no rows, or a non-empty first row and later rows that fit); an empty first row is EmptyField; `labels` are the times of the rows after the first; one series per count of the first row, series c labelled `cpu<c>` with column c as its data |
| Csv.LabelsOneShort | scripts/parse_interrupts.py:69-74 | with rows of one width every series has one entry more than `labels` |
| Csv.ReshapeRoundTrip | scripts/parse_interrupts.py:66-87 | rows of one width can be rebuilt from the document: row j > 0 is label j-1 with entry j of every series, and the first row's counts are every series' entry 0 |
| Csv.CsvToJsonIntended | scripts/parse_interrupts.py:57-63 | the corrected reshaping: same success condition and series as `CsvToJson`, but `labels` holds the time of every row |
| Csv.IntendedAligned | scripts/parse_interrupts.py:57-63 | with the corrected reshaping, entry j of every series and `labels[j]` both come from row j |
| Pipeline.Records | scripts/parse_interrupts.py:98-101 | one record per marker occurrence; no record contains the marker; the text is the preamble, the marker, and the records joined by the marker |
| Pipeline.OutputPath | scripts/parse_interrupts.py:112 | the output path is the input path's pieces around `data/raw` joined by `data/final`, plus `.json`; it is 2 characters longer per replacement plus 5, ends in `.json`, and is the input plus `.json` when `data/raw` does not occur |
| Pipeline.Run | scripts/parse_interrupts.py:99-104 | every record adds at most one CSV row |
| Pipeline.ReadErrorAborts | scripts/parse_interrupts.py:101-109 | a record that cannot be read, at any position, makes the whole run fail |
| Pipeline.ConvertReadErrorAborts | scripts/parse_interrupts.py:101-111 | such a capture produces no document, with either reshaping |
| Pipeline.RunSnapshots | scripts/parse_interrupts.py:99-104 | every snapshot adds at most one CSV row |
| Pipeline.RunReadsSnapshots | scripts/parse_interrupts.py:101-104 | once every record reads without error, the loop's result depends only on the snapshots read |
| Pipeline.AnchoredRun | scripts/parse_interrupts.py:39-42 | past the baseline, each snapshot of one width yields exactly one row: its time minus the anchor, and its totals minus the previous snapshot's |
| Pipeline.AfterBaseline | scripts/parse_interrupts.py:19-20 | right after a baseline with no anchor, the next snapshot is time zero and each snapshot yields one row timed from it, its totals minus the ones before |
| Pipeline.SteadyRun | scripts/parse_interrupts.py:99-104 | k snapshots of one width give k-1 rows; row j is snapshot j+1 minus snapshot j, timed from snapshot 1 (so the first row is at time 0); the last totals are handed on |
| Pipeline.SteadyColumns | scripts/parse_interrupts.py:40-41 | reading those rows as columns, CPU c's column has k-1 entries, entry j being snapshot j+1's total minus snapshot j's |
| Pipeline.SteadyLabels | scripts/parse_interrupts.py:19-20 | the times of the rows after the first are each snapshot's time since snapshot 1 |
| Pipeline.DeltasTelescope | scripts/parse_interrupts.py:40 | each CPU's deltas add up to its last total minus its first |
| Pipeline.SkipsEmptyBaseline | scripts/parse_interrupts.py:43-45 | a leading record with no present totals is passed over: the next record becomes the baseline |
| Pipeline.AbortsOnMissingTotals | scripts/parse_interrupts.py:39-40 | once present totals are held, a record with no matching IRQ line aborts the run with NoInterrupts, wherever it sits and whatever records follow it |
| Pipeline.ConvertTooShort | scripts/parse_interrupts.py:111 | a capture of fewer than two readable records gives an empty document, with no labels and no series |
| Pipeline.SteadyDocument | scripts/parse_interrupts.py:111 | for k >= 2 snapshots of width n: n series labelled cpu0…, each of k-1 consecutive differences summing to last minus first total; `labels` holds k-2 times, those of snapshots 2.. since snapshot 1 |
| Pipeline.ConvertSteady | scripts/parse_interrupts.py:96-114 | a capture whose records read as such snapshots converts without error into `SteadyDocument`'s document, at `OutputPath` of the input path |
| Pipeline.SteadyIntendedDocument | scripts/parse_interrupts.py:57-63 | with the corrected reshaping, the same snapshots give k-1 labels starting at 0, one per entry of each of the n series |
| Pipeline.ConvertIntendedAligned | scripts/parse_interrupts.py:57-63 | the corrected conversion of such a capture yields `SteadyIntendedDocument`'s document |
| Scenario.ThreeSnapshotsRows | scripts/parse_interrupts.py:39-45 | snapshots (5,10), (8,15), (12,20) at 0 s, 10 s and 30 s give rows (0; 3, 5) and (20; 4, 5) |
| Scenario.ThreeSnapshotsAsWritten | scripts/parse_interrupts.py:66-88 | those rows give labels [20] and series cpu0 [3, 4] and cpu1 [5, 5] |
| Scenario.ThreeSnapshotsIntended | scripts/parse_interrupts.py:57-63 | with the corrected reshaping they give labels [0, 20] |
| Scenario.OverlappingSeparator | scripts/parse_interrupts.py:98 | `"aaa".split("aa")` is `['', 'a']` |

## Left out

- Reading the capture file and writing the JSON file, `sys.argv`, the usage message, the stderr diagnostics and `sys.exit` (scripts/parse_interrupts.py:96-97, 105-109, 113-120): these are I/O. The capture's text is a parameter, and an `Err` stands for exit status 1.
- Calendar parsing by `datetime.strptime` (line 18) is the `TimeParser` parameter. Timestamps are whole seconds, so elapsed times are integers.
- The regular-expression engine (lines 28-29) is the `Matcher` parameter. Its counts come from `\d+` and so are non-negative. The model does not rely on that and does not require it.
- `'%g'` formatting and `json.dumps` are not modelled as text. A time field is represented by its integer value, and `Csv.TimeFieldParses` states which of them `int()` accepts back. The document is the `Csv.Document` value, not its JSON text.
- Csv.CpuLabel: writes the index in decimal. `'cpu%g'` would switch to exponent form from a million columns on.
- Csv.CsvToJson: states exactly when it fails, but names the error kind only for an empty first row. The kinds for later rows, in the order the loop raises them, are in its body only.
- The text of exception messages is not modelled, only the kind of error.
- Python 3 semantics are not modelled: there `map` returns an iterator, which is always true, and the group limit of the regular-expression compiler is gone.

## Findings

| source | as written | input that shows it | evidently intended | confidence | as-written member | corrected member |
|---|---|---|---|---|---|---|
| scripts/parse_interrupts.py:69-74 | `times` is filled only from rows 2..n, so the first row's time (always 0) never reaches `labels`, and `labels[j]` sits beside the series' entry j but is row j+1's time | snapshots (5,10), (8,15), (12,20) at 0 s, 10 s and 30 s: `labels` is [20] while cpu0 is [3, 4] (`Scenario.ThreeSnapshotsAsWritten`) | one label per row, [0, 20], aligned with each series, as the docstring at lines 57-63 shows | high (not executed) | Csv.CsvToJson | Csv.CsvToJsonIntended |
