/** `main` (scripts/parse_interrupts.py:91-114): the capture text is cut into
    records at each timestamp marker, the records are threaded through
    `format_line`, the rows are reshaped by `csv_to_json`, and the output path
    is derived from the input path. Reading and writing the files is not
    modelled: the capture's text is a parameter and the document is returned. */
module Pipeline {
  import opened Outcomes
  import opened Text
  import opened Csv
  import opened Snapshots

  const Marker := "##TIMESTAMP## "

  /** `blob.split('##TIMESTAMP## ')[1:]`: one record per marker, the text
      before the first marker dropped. */
  function Records(text: string): (r: seq<string>)
    ensures |r| == Count(text, Marker)
    ensures forall k :: 0 <= k < |r| ==> !Contains(r[k], Marker)
    ensures |r| == 0 ==> !Contains(text, Marker)
    ensures |r| > 0 ==> text == Split(text, Marker)[0] + Marker + Join(r, Marker)
  {
    var parts := Split(text, Marker);
    SplitCount(text, Marker);
    CountZero(text, Marker);
    parts[1..]
  }

  /** `fn.replace('data/raw', 'data/final') + '.json'`. */
  function OutputPath(path: string): (r: string)
    ensures r == Join(Split(path, "data/raw"), "data/final") + ".json"
    ensures |r| == |path| + 2 * Count(path, "data/raw") + 5
    ensures r[|r| - 5..] == ".json"
    ensures !Contains(path, "data/raw") ==> r == path + ".json"
  {
    ReplaceJoinsSplit(path, "data/raw", "data/final");
    ReplaceLength(path, "data/raw", "data/final");
    Replace(path, "data/raw", "data/final") + ".json"
  }

  /** The CSV rows emitted so far and the state after the last record. */
  datatype Trace = Trace(rows: seq<Row>, final: State)

  /** `csv_str += csv_line`: the empty string adds no row. */
  function RowsOf(row: Option<Row>): seq<Row> {
    if row.Some? then [row.value] else []
  }

  /** The loop of `main`: each record is handed the previous call's totals,
      and the first exception aborts the whole run. */
  function Run(st: State, records: seq<string>, parseTime: TimeParser, matchLine: Matcher): (r: Result<Trace>)
    ensures r.Ok? ==> |r.value.rows| <= |records|
    decreases |records|
  {
    if |records| == 0 then Ok(Trace([], st))
    else
      var step :- FormatLine(records[0], st, parseTime, matchLine);
      var rest :- Run(step.next, records[1..], parseTime, matchLine);
      Ok(Trace(RowsOf(step.row) + rest.rows, rest.final))
  }

  /** Any record that cannot be read ends the run with an error, whatever
      comes before or after it: the `try` around each call exits the script
      on the first exception. */
  lemma {:induction false} ReadErrorAborts(
    st: State, records: seq<string>, parseTime: TimeParser, matchLine: Matcher, i: nat)
    requires i < |records| && ReadSnapshot(records[i], parseTime, matchLine).Err?
    ensures Run(st, records, parseTime, matchLine).Err?
  {
    StepErrorAborts(st, records, parseTime, matchLine, i);
  }

  /** A record on which `format_line` raises from every state ends the run
      with an error. */
  lemma {:induction false} StepErrorAborts(
    st: State, records: seq<string>, parseTime: TimeParser, matchLine: Matcher, i: nat)
    requires i < |records|
    requires forall s: State :: FormatLine(records[i], s, parseTime, matchLine).Err?
    ensures Run(st, records, parseTime, matchLine).Err?
    decreases i
  {
    var first := FormatLine(records[0], st, parseTime, matchLine);
    if first.Ok? {
      assert records[1..][i - 1] == records[i];
      StepErrorAborts(first.value.next, records[1..], parseTime, matchLine, i - 1);
      RunTailAborts(st, records, parseTime, matchLine);
    }
  }

  /** A run whose first record goes through but whose remaining records
      fail, fails. */
  lemma {:induction false} RunTailAborts(st: State, records: seq<string>, parseTime: TimeParser, matchLine: Matcher)
    requires |records| > 0 && FormatLine(records[0], st, parseTime, matchLine).Ok?
    requires Run(FormatLine(records[0], st, parseTime, matchLine).value.next, records[1..], parseTime, matchLine).Err?
    ensures Run(st, records, parseTime, matchLine).Err?
  {
  }

  /** The same loop over records already read into snapshots. */
  function RunSnapshots(st: State, snaps: seq<Snapshot>): (r: Result<Trace>)
    ensures r.Ok? ==> |r.value.rows| <= |snaps|
    decreases |snaps|
  {
    if |snaps| == 0 then Ok(Trace([], st))
    else
      var step :- Advance(st, snaps[0]);
      var rest :- RunSnapshots(step.next, snaps[1..]);
      Ok(Trace(RowsOf(step.row) + rest.rows, rest.final))
  }

  /** Once every record reads without error, the run depends only on the
      snapshots read. */
  lemma {:induction false} RunReadsSnapshots(
    st: State, records: seq<string>, snaps: seq<Snapshot>, parseTime: TimeParser, matchLine: Matcher)
    requires |records| == |snaps|
    requires forall i :: 0 <= i < |records| ==> ReadSnapshot(records[i], parseTime, matchLine) == Ok(snaps[i])
    ensures Run(st, records, parseTime, matchLine) == RunSnapshots(st, snaps)
    decreases |records|
  {
    if |records| > 0 {
      match Advance(st, snaps[0])
      case Err(_) =>
      case Ok(step) =>
        RunReadsSnapshots(step.next, records[1..], snaps[1..], parseTime, matchLine);
    }
  }

  /** One turn of the loop: the first snapshot's row, if any, then the rows
      of the rest. */
  lemma {:induction false} RunCons(st: State, snaps: seq<Snapshot>)
    requires |snaps| > 0 && Advance(st, snaps[0]).Ok?
    requires RunSnapshots(Advance(st, snaps[0]).value.next, snaps[1..]).Ok?
    ensures var step := Advance(st, snaps[0]).value;
      var rest := RunSnapshots(step.next, snaps[1..]).value;
      RunSnapshots(st, snaps) == Ok(Trace(RowsOf(step.row) + rest.rows, rest.final))
  {
  }

  /** Every snapshot has totals for the same `n > 0` CPUs. */
  predicate Uniform(snaps: seq<Snapshot>, n: nat) {
    n > 0 && forall i :: 0 <= i < |snaps| ==> snaps[i].totals.Some? && |snaps[i].totals.value| == n
  }

  /** Past the baseline, with anchor `a` and previous totals `p`, each
      snapshot yields one row: its time since `a` and its totals minus the
      totals before it. */
  lemma {:induction false} AnchoredRun(a: int, p: seq<int>, snaps: seq<Snapshot>, n: nat)
    requires |p| == n && Uniform(snaps, n)
    ensures var r := RunSnapshots(State(Some(a), Some(p)), snaps);
      && r.Ok?
      && |r.value.rows| == |snaps|
      && r.value.final == State(Some(a), if |snaps| == 0 then Some(p) else snaps[|snaps| - 1].totals)
      && (|snaps| > 0 ==> r.value.rows[0] == Row(snaps[0].time - a, ZipSub(snaps[0].totals.value, p)))
      && forall j :: 1 <= j < |snaps| ==>
           r.value.rows[j] == Row(snaps[j].time - a, ZipSub(snaps[j].totals.value, snaps[j - 1].totals.value))
    decreases |snaps|
  {
    if |snaps| > 0 {
      var st := State(Some(a), Some(p));
      var step := Advance(st, snaps[0]).value;
      assert step.row == Some(Row(snaps[0].time - a, ZipSub(snaps[0].totals.value, p)));
      assert step.next == State(Some(a), snaps[0].totals);
      AnchoredRun(a, snaps[0].totals.value, snaps[1..], n);
      var rest := RunSnapshots(step.next, snaps[1..]).value;
      RunCons(st, snaps);
      ShiftRows(a, step.row.value, rest.rows, snaps);
    }
  }

  /** Puts the row of the first snapshot in front of the rows of the others,
      each timed from `a` and taken against the snapshot before it. */
  lemma {:induction false} ShiftRows(a: int, first: Row, tail: seq<Row>, snaps: seq<Snapshot>)
    requires |snaps| >= 1 && forall i :: 0 <= i < |snaps| ==> snaps[i].totals.Some?
    requires |tail| == |snaps| - 1
    requires |tail| > 0 ==>
      tail[0] == Row(snaps[1..][0].time - a, ZipSub(snaps[1..][0].totals.value, snaps[0].totals.value))
    requires forall k :: 1 <= k < |tail| ==>
      tail[k] == Row(snaps[1..][k].time - a, ZipSub(snaps[1..][k].totals.value, snaps[1..][k - 1].totals.value))
    ensures ([first] + tail)[0] == first
    ensures forall j :: 1 <= j < |snaps| ==>
      ([first] + tail)[j] == Row(snaps[j].time - a, ZipSub(snaps[j].totals.value, snaps[j - 1].totals.value))
  {
    forall j | 1 <= j < |snaps|
      ensures ([first] + tail)[j] == Row(snaps[j].time - a, ZipSub(snaps[j].totals.value, snaps[j - 1].totals.value))
    {
      var k := j - 1;
      assert ([first] + tail)[j] == tail[k];
      assert snaps[1..][k] == snaps[j];
      if k > 0 {
        assert snaps[1..][k - 1] == snaps[j - 1];
      }
    }
  }

  /** Right after the baseline, with previous totals `p` and no anchor, the
      next snapshot becomes time zero and every snapshot yields one row
      timed from it. */
  lemma {:induction false} AfterBaseline(p: seq<int>, snaps: seq<Snapshot>, n: nat)
    requires |p| == n && Uniform(snaps, n) && |snaps| >= 1
    ensures var r := RunSnapshots(State(None, Some(p)), snaps);
      && r.Ok?
      && |r.value.rows| == |snaps|
      && r.value.final.prev == snaps[|snaps| - 1].totals
      && r.value.rows[0] == Row(0, ZipSub(snaps[0].totals.value, p))
      && forall j :: 1 <= j < |snaps| ==>
           r.value.rows[j]
           == Row(snaps[j].time - snaps[0].time, ZipSub(snaps[j].totals.value, snaps[j - 1].totals.value))
  {
    var t0 := snaps[0].time;
    var st := State(None, Some(p));
    var first := Advance(st, snaps[0]).value;
    assert first.row == Some(Row(0, ZipSub(snaps[0].totals.value, p)));
    assert first.next == State(Some(t0), snaps[0].totals);
    AnchoredRun(t0, snaps[0].totals.value, snaps[1..], n);
    var tail := RunSnapshots(first.next, snaps[1..]).value;
    RunCons(st, snaps);
    ShiftRows(t0, first.row.value, tail.rows, snaps);
  }

  /** From the start, over snapshots of one width: the first snapshot is the
      baseline and yields no row, the second is time zero, and row `j` is
      snapshot `j + 1` minus snapshot `j`, timed from the second snapshot. */
  lemma {:induction false} SteadyRun(snaps: seq<Snapshot>, n: nat)
    requires |snaps| >= 1 && Uniform(snaps, n)
    ensures var r := RunSnapshots(Start, snaps);
      && r.Ok?
      && |r.value.rows| == |snaps| - 1
      && r.value.final.prev == snaps[|snaps| - 1].totals
      && forall j :: 0 <= j < |snaps| - 1 ==>
           r.value.rows[j]
           == Row(snaps[j + 1].time - snaps[1].time, ZipSub(snaps[j + 1].totals.value, snaps[j].totals.value))
  {
    var base := Advance(Start, snaps[0]).value;
    assert base == Step(None, State(None, snaps[0].totals));
    var s1 := snaps[1..];
    if |s1| == 0 {
      assert RunSnapshots(base.next, s1) == Ok(Trace([], base.next));
    } else {
      AfterBaseline(snaps[0].totals.value, s1, n);
      var tail := RunSnapshots(base.next, s1).value;
      assert RowsOf(base.row) + tail.rows == tail.rows;
      assert RunSnapshots(Start, snaps) == Ok(tail);
      forall j | 0 <= j < |snaps| - 1
        ensures tail.rows[j]
             == Row(snaps[j + 1].time - snaps[1].time, ZipSub(snaps[j + 1].totals.value, snaps[j].totals.value))
      {
        assert s1[j] == snaps[j + 1];
        if j > 0 {
          assert s1[j - 1] == snaps[j];
          assert tail.rows[j] == Row(s1[j].time - s1[0].time, ZipSub(s1[j].totals.value, s1[j - 1].totals.value));
        }
      }
    }
  }

  /** The rows of `SteadyRun` read as columns: CPU `c`'s column holds one
      delta per row, snapshot `j + 1`'s total minus snapshot `j`'s. */
  lemma {:induction false} SteadyColumns(snaps: seq<Snapshot>, n: nat)
    requires |snaps| >= 1 && Uniform(snaps, n)
    ensures RunSnapshots(Start, snaps).Ok?
    ensures var rows := RunSnapshots(Start, snaps).value.rows;
      && (forall j :: 0 <= j < |rows| ==> |rows[j].deltas| == n)
      && forall c :: 0 <= c < n ==>
           && |Column(rows, c)| == |snaps| - 1
           && forall j :: 0 <= j < |snaps| - 1 ==>
                Column(rows, c)[j] == snaps[j + 1].totals.value[c] - snaps[j].totals.value[c]
  {
    SteadyRun(snaps, n);
    var rows := RunSnapshots(Start, snaps).value.rows;
    forall j | 0 <= j < |rows| ensures |rows[j].deltas| == n {
      assert rows[j].deltas == ZipSub(snaps[j + 1].totals.value, snaps[j].totals.value);
    }
    forall c | 0 <= c < n
      ensures |Column(rows, c)| == |snaps| - 1
      ensures forall j :: 0 <= j < |snaps| - 1 ==>
                Column(rows, c)[j] == snaps[j + 1].totals.value[c] - snaps[j].totals.value[c]
    {
      ColumnOfUniform(rows, c);
      forall j | 0 <= j < |snaps| - 1
        ensures Column(rows, c)[j] == snaps[j + 1].totals.value[c] - snaps[j].totals.value[c]
      {
        assert rows[j].deltas == ZipSub(snaps[j + 1].totals.value, snaps[j].totals.value);
      }
    }
  }

  /** The time column of `SteadyRun`'s rows after the first: each row's
      time since the second snapshot. */
  lemma {:induction false} SteadyLabels(snaps: seq<Snapshot>, n: nat)
    requires |snaps| >= 2 && Uniform(snaps, n)
    ensures RunSnapshots(Start, snaps).Ok?
    ensures |RunSnapshots(Start, snaps).value.rows| == |snaps| - 1
    ensures var tail := RunSnapshots(Start, snaps).value.rows[1..];
      && |Times(tail)| == |snaps| - 2
      && forall j :: 0 <= j < |snaps| - 2 ==> Times(tail)[j] == snaps[j + 2].time - snaps[1].time
  {
    SteadyRun(snaps, n);
    var rows := RunSnapshots(Start, snaps).value.rows;
    var tail := rows[1..];
    var ts := Times(tail);
    forall j | 0 <= j < |snaps| - 2
      ensures ts[j] == snaps[j + 2].time - snaps[1].time
    {
      assert rows[j + 1].time == snaps[j + 2].time - snaps[1].time;
      assert tail[j] == rows[j + 1];
      assert ts[j] == tail[j].time;
    }
  }

  /** Sum of a sequence. */
  function Sum(s: seq<int>): int {
    if |s| == 0 then 0 else s[0] + Sum(s[1..])
  }

  /** Consecutive differences add up to last minus first. */
  lemma {:induction false} Telescope(xs: seq<int>, ds: seq<int>)
    requires |xs| == |ds| + 1
    requires forall j :: 0 <= j < |ds| ==> ds[j] == xs[j + 1] - xs[j]
    ensures Sum(ds) == xs[|xs| - 1] - xs[0]
  {
    if |ds| > 0 {
      Telescope(xs[1..], ds[1..]);
    }
  }

  /** Over snapshots of one width, CPU `c`'s deltas add up to its last
      total minus its first. */
  lemma {:induction false} DeltasTelescope(snaps: seq<Snapshot>, n: nat, c: nat)
    requires |snaps| >= 1 && Uniform(snaps, n) && c < n
    ensures RunSnapshots(Start, snaps).Ok?
    ensures Sum(Column(RunSnapshots(Start, snaps).value.rows, c))
         == snaps[|snaps| - 1].totals.value[c] - snaps[0].totals.value[c]
  {
    SteadyColumns(snaps, n);
    var rows := RunSnapshots(Start, snaps).value.rows;
    var xs := seq(|snaps|, i requires 0 <= i < |snaps| => snaps[i].totals.value[c]);
    Telescope(xs, Column(rows, c));
  }

  /** A record that reads to no usable totals before any baseline is passed
      over: the record after it becomes the baseline. */
  lemma {:induction false} SkipsEmptyBaseline(s0: Snapshot, snaps: seq<Snapshot>)
    requires !Truthy(s0.totals) && |snaps| > 0
    ensures RunSnapshots(Start, [s0] + snaps) == RunSnapshots(Start, snaps)
  {
    assert ([s0] + snaps)[1..] == snaps;
    var next := State(None, s0.totals);
    assert Advance(Start, s0) == Ok(Step(None, next));
    var step := Advance(Start, snaps[0]).value;
    assert Advance(next, snaps[0]) == Ok(step);
    match RunSnapshots(step.next, snaps[1..])
    case Err(_) =>
    case Ok(t) =>
      assert RunSnapshots(next, snaps) == RunSnapshots(Start, snaps);
      assert RowsOf(None) + RunSnapshots(next, snaps).value.rows == RunSnapshots(next, snaps).value.rows;
  }

  /** With usable totals in hand, a record in which no IRQ line matches
      aborts the run, whatever records follow it: every record before it
      keeps the totals usable, and `zip` is then handed `False`. */
  lemma {:induction false} AbortsOnMissingTotals(st: State, snaps: seq<Snapshot>, i: nat)
    requires Truthy(st.prev) && i < |snaps|
    requires forall k :: 0 <= k < i ==> Truthy(snaps[k].totals)
    requires snaps[i].totals.None?
    ensures RunSnapshots(st, snaps) == Err(NoInterrupts)
    decreases i
  {
    if i > 0 {
      var step := Advance(st, snaps[0]).value;
      assert snaps[1..][i - 1] == snaps[i];
      AbortsOnMissingTotals(step.next, snaps[1..], i - 1);
    }
  }

  /** The capture file's conversion: the output path and the JSON document. */
  datatype Output = Output(path: string, doc: Document)

  /** `main` as written, from the capture's text to the document. */
  function Convert(path: string, text: string, parseTime: TimeParser, matchLine: Matcher): Result<Output> {
    var trace :- Run(Start, Records(text), parseTime, matchLine);
    var doc :- CsvToJson(trace.rows);
    Ok(Output(OutputPath(path), doc))
  }

  /** `main` with the corrected reshaping, whose labels include time zero. */
  function ConvertIntended(path: string, text: string, parseTime: TimeParser, matchLine: Matcher): Result<Output> {
    var trace :- Run(Start, Records(text), parseTime, matchLine);
    var doc :- CsvToJsonIntended(trace.rows);
    Ok(Output(OutputPath(path), doc))
  }

  /** A capture with a record that cannot be read (a bad timestamp, no
      header line, a pattern too large) produces no output file. */
  lemma {:induction false} ConvertReadErrorAborts(
    path: string, text: string, parseTime: TimeParser, matchLine: Matcher, i: nat)
    requires i < |Records(text)| && ReadSnapshot(Records(text)[i], parseTime, matchLine).Err?
    ensures Convert(path, text, parseTime, matchLine).Err?
    ensures ConvertIntended(path, text, parseTime, matchLine).Err?
  {
    ReadErrorAborts(Start, Records(text), parseTime, matchLine, i);
  }

  /** A capture whose records read without error into snapshots `snaps`. */
  predicate ReadsAs(text: string, snaps: seq<Snapshot>, parseTime: TimeParser, matchLine: Matcher) {
    var records := Records(text);
    |records| == |snaps|
    && forall i :: 0 <= i < |records| ==> ReadSnapshot(records[i], parseTime, matchLine) == Ok(snaps[i])
  }

  /** A capture of fewer than two records gives an empty document. */
  lemma {:induction false} ConvertTooShort(path: string, text: string, parseTime: TimeParser, matchLine: Matcher, snaps: seq<Snapshot>)
    requires ReadsAs(text, snaps, parseTime, matchLine) && |snaps| <= 1
    ensures Convert(path, text, parseTime, matchLine) == Ok(Output(OutputPath(path), Document([], [])))
  {
    RunReadsSnapshots(Start, Records(text), snaps, parseTime, matchLine);
  }

  /** For at least two snapshots of one width `n` whose elapsed times '%g'
      writes as integers, the document has one series per CPU, labelled
      cpu0, cpu1, ..., holding the deltas between consecutive snapshots,
      which add up to last minus first total; `labels` holds the elapsed
      time of every row but the first. */
  lemma {:induction false} SteadyDocument(snaps: seq<Snapshot>, n: nat)
    requires |snaps| >= 2 && Uniform(snaps, n)
    requires forall j :: 2 <= j < |snaps| ==> TimeFieldParses(snaps[j].time - snaps[1].time)
    ensures RunSnapshots(Start, snaps).Ok?
    ensures CsvToJson(RunSnapshots(Start, snaps).value.rows).Ok?
    ensures var doc := CsvToJson(RunSnapshots(Start, snaps).value.rows).value;
      && |doc.datasets| == n
      && |doc.labels| == |snaps| - 2
      && (forall j :: 0 <= j < |snaps| - 2 ==> doc.labels[j] == snaps[j + 2].time - snaps[1].time)
      && forall c :: 0 <= c < n ==>
           && doc.datasets[c].name == CpuLabel(c)
           && |doc.datasets[c].data| == |snaps| - 1
           && (forall j :: 0 <= j < |snaps| - 1 ==>
                 doc.datasets[c].data[j] == snaps[j + 1].totals.value[c] - snaps[j].totals.value[c])
           && Sum(doc.datasets[c].data) == snaps[|snaps| - 1].totals.value[c] - snaps[0].totals.value[c]
  {
    SteadyRun(snaps, n);
    SteadyColumns(snaps, n);
    var rows := RunSnapshots(Start, snaps).value.rows;
    forall j | 1 <= j < |rows| ensures Fits(rows[j], |rows[0].deltas|) {
      assert TimeFieldParses(snaps[j + 1].time - snaps[1].time);
    }
    assert Convertible(rows);
    var doc := CsvToJson(rows).value;
    assert |doc.datasets| == n;
    assert doc.labels == Times(rows[1..]);
    SteadyLabels(snaps, n);
    forall c | 0 <= c < n
      ensures doc.datasets[c].name == CpuLabel(c)
      ensures doc.datasets[c].data == Column(rows, c)
      ensures Sum(doc.datasets[c].data) == snaps[|snaps| - 1].totals.value[c] - snaps[0].totals.value[c]
    {
      assert doc.datasets[c] == Series(CpuLabel(c), Column(rows, c));
      DeltasTelescope(snaps, n, c);
    }
  }

  /** End to end: a capture whose records read as `SteadyDocument`'s
      snapshots is converted into that document, written next to the input
      path's `data/final` counterpart. */
  lemma {:induction false} ConvertSteady(
    path: string, text: string, parseTime: TimeParser, matchLine: Matcher, snaps: seq<Snapshot>, n: nat)
    requires ReadsAs(text, snaps, parseTime, matchLine)
    requires |snaps| >= 2 && Uniform(snaps, n)
    requires forall j :: 2 <= j < |snaps| ==> TimeFieldParses(snaps[j].time - snaps[1].time)
    ensures RunSnapshots(Start, snaps).Ok?
    ensures CsvToJson(RunSnapshots(Start, snaps).value.rows).Ok?
    ensures Convert(path, text, parseTime, matchLine)
         == Ok(Output(OutputPath(path), CsvToJson(RunSnapshots(Start, snaps).value.rows).value))
  {
    RunReadsSnapshots(Start, Records(text), snaps, parseTime, matchLine);
    SteadyDocument(snaps, n);
  }

  /** With the corrected reshaping, `labels` and every series have one
      entry per row, and the first label is time zero. */
  lemma {:induction false} SteadyIntendedDocument(snaps: seq<Snapshot>, n: nat)
    requires |snaps| >= 2 && Uniform(snaps, n)
    requires forall j :: 2 <= j < |snaps| ==> TimeFieldParses(snaps[j].time - snaps[1].time)
    ensures RunSnapshots(Start, snaps).Ok?
    ensures CsvToJsonIntended(RunSnapshots(Start, snaps).value.rows).Ok?
    ensures var doc := CsvToJsonIntended(RunSnapshots(Start, snaps).value.rows).value;
      && |doc.datasets| == n
      && |doc.labels| == |snaps| - 1
      && doc.labels[0] == 0
      && (forall j :: 0 <= j < |snaps| - 1 ==> doc.labels[j] == snaps[j + 1].time - snaps[1].time)
      && forall c :: 0 <= c < n ==> |doc.datasets[c].data| == |doc.labels|
  {
    SteadyRun(snaps, n);
    var rows := RunSnapshots(Start, snaps).value.rows;
    forall j | 0 <= j < |rows| ensures |rows[j].deltas| == n {
      assert rows[j].deltas == ZipSub(snaps[j + 1].totals.value, snaps[j].totals.value);
    }
    forall j | 1 <= j < |rows| ensures TimeFieldParses(rows[j].time) {
      assert TimeFieldParses(snaps[j + 1].time - snaps[1].time);
    }
    IntendedAligned(rows, n);
    var doc := CsvToJsonIntended(rows).value;
    forall j | 0 <= j < |snaps| - 1
      ensures doc.labels[j] == snaps[j + 1].time - snaps[1].time
    {
      assert rows[j] == Row(snaps[j + 1].time - snaps[1].time, ZipSub(snaps[j + 1].totals.value, snaps[j].totals.value));
      assert doc.labels[j] == rows[j].time;
    }
  }

  /** End to end with the corrected reshaping: the capture's records read as
      `SteadyIntendedDocument`'s snapshots give its document. */
  lemma {:induction false} ConvertIntendedAligned(
    path: string, text: string, parseTime: TimeParser, matchLine: Matcher, snaps: seq<Snapshot>, n: nat)
    requires ReadsAs(text, snaps, parseTime, matchLine)
    requires |snaps| >= 2 && Uniform(snaps, n)
    requires forall j :: 2 <= j < |snaps| ==> TimeFieldParses(snaps[j].time - snaps[1].time)
    ensures RunSnapshots(Start, snaps).Ok?
    ensures CsvToJsonIntended(RunSnapshots(Start, snaps).value.rows).Ok?
    ensures ConvertIntended(path, text, parseTime, matchLine)
         == Ok(Output(OutputPath(path), CsvToJsonIntended(RunSnapshots(Start, snaps).value.rows).value))
  {
    RunReadsSnapshots(Start, Records(text), snaps, parseTime, matchLine);
    SteadyIntendedDocument(snaps, n);
  }
}
