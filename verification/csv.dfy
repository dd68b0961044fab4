/** The intermediate CSV text and `csv_to_json`, which turns its rows into
    per-CPU columns (scripts/parse_interrupts.py:47-88).

    The CSV text is represented by its rows. The places where the script's
    `int()` calls reject a field of that text are modelled as explicit errors:
    a row with no counts ends in an empty field, and a time of 10^6 seconds
    or more in magnitude is written by '%g' in exponent form. */
module Csv {
  import opened Outcomes
  import opened Text

  /** One CSV line: elapsed seconds, then one interrupt delta per CPU. */
  datatype Row = Row(time: int, deltas: seq<int>)

  /** One chart series: its "label" (the CPU) and its deltas in row order. */
  datatype Series = Series(name: string, data: seq<int>)

  /** The JSON object: a time axis and one series per CPU. */
  datatype Document = Document(labels: seq<int>, datasets: seq<Series>)

  /** `int()` accepts what '%g' writes for a whole number of seconds only
      below 10^6 in magnitude; from there on '%g' switches to exponent form. */
  predicate TimeFieldParses(t: int) {
    -1000000 < t < 1000000
  }

  /** `"cpu%g" % c`, which is plain decimal for any realistic CPU index. */
  function CpuLabel(c: nat): string {
    "cpu" + Decimal(c)
  }

  lemma {:induction false} CpuLabelsDistinct(a: nat, b: nat)
    requires a != b
    ensures CpuLabel(a) != CpuLabel(b)
  {
    if CpuLabel(a) == CpuLabel(b) {
      assert CpuLabel(a)[3..] == Decimal(a);
      assert CpuLabel(b)[3..] == Decimal(b);
      DecimalInjective(a, b);
    }
  }

  /** The time column of `rows`, in row order. */
  function Times(rows: seq<Row>): (r: seq<int>)
    ensures |r| == |rows|
    ensures forall j :: 0 <= j < |rows| ==> r[j] == rows[j].time
  {
    if |rows| == 0 then [] else [rows[0].time] + Times(rows[1..])
  }

  /** Count column `c`: the `c`-th delta of every row wide enough to have
      one, in row order. */
  function Column(rows: seq<Row>, c: nat): seq<int> {
    if |rows| == 0 then []
    else (if c < |rows[0].deltas| then [rows[0].deltas[c]] else []) + Column(rows[1..], c)
  }

  /** When every row has a `c`-th delta, column `c` holds exactly those. */
  lemma {:induction false} ColumnOfUniform(rows: seq<Row>, c: nat)
    requires forall j :: 0 <= j < |rows| ==> c < |rows[j].deltas|
    ensures |Column(rows, c)| == |rows|
    ensures forall j :: 0 <= j < |rows| ==> Column(rows, c)[j] == rows[j].deltas[c]
  {
    if |rows| > 0 {
      ColumnOfUniform(rows[1..], c);
    }
  }

  /** A row after the first is read without error into `width` columns. */
  predicate Fits(row: Row, width: nat) {
    TimeFieldParses(row.time) && 0 < |row.deltas| <= width
  }

  /** The rows `csv_to_json` reads without raising. */
  predicate Convertible(rows: seq<Row>) {
    |rows| == 0
    || (0 < |rows[0].deltas| && forall j :: 1 <= j < |rows| ==> Fits(rows[j], |rows[0].deltas|))
  }

  /** Appends `fields[c]` to column `c` for each field of a row. */
  function AppendFields(cols: seq<seq<int>>, fields: seq<int>): (r: seq<seq<int>>)
    requires |fields| <= |cols|
    ensures |r| == |cols|
    ensures forall c :: 0 <= c < |cols| ==> r[c] == cols[c] + (if c < |fields| then [fields[c]] else [])
  {
    seq(|cols|, c requires 0 <= c < |cols| => if c < |fields| then cols[c] + [fields[c]] else cols[c])
  }

  /** All rows fit exactly when the first fits and all the others do. */
  lemma {:induction false} FitsCons(rows: seq<Row>, width: nat)
    requires |rows| > 0
    ensures (forall j :: 0 <= j < |rows| ==> Fits(rows[j], width))
        <==> Fits(rows[0], width) && forall j :: 0 <= j < |rows[1..]| ==> Fits(rows[1..][j], width)
  {
    if Fits(rows[0], width) && forall j :: 0 <= j < |rows[1..]| ==> Fits(rows[1..][j], width) {
      forall j | 1 <= j < |rows| ensures Fits(rows[j], width) {
        assert rows[j] == rows[1..][j - 1];
      }
    }
  }

  /** Every column of `rows` is the first row's entry, if it has one, then
      the column of the rest. */
  lemma {:induction false} ColumnsCons(rows: seq<Row>)
    requires |rows| > 0
    ensures forall c: nat ::
      Column(rows, c) == (if c < |rows[0].deltas| then [rows[0].deltas[c]] else []) + Column(rows[1..], c)
  {
  }

  /** The loop over the rows after the first: time first, then every count. */
  function AppendRows(times: seq<int>, cols: seq<seq<int>>, rest: seq<Row>)
    : (r: Result<(seq<int>, seq<seq<int>>)>)
    ensures r.Ok? <==> forall j :: 0 <= j < |rest| ==> Fits(rest[j], |cols|)
    ensures r.Ok? ==> r.value.0 == times + Times(rest)
    ensures r.Ok? ==> |r.value.1| == |cols|
    ensures r.Ok? ==> forall c :: 0 <= c < |cols| ==> r.value.1[c] == cols[c] + Column(rest, c)
    decreases |rest|
  {
    if |rest| == 0 then Ok((times, cols))
    else
      var row := rest[0];
      if !TimeFieldParses(row.time) then Err(TimeNotInteger)
      else if |row.deltas| == 0 then Err(EmptyField)
      else if |row.deltas| > |cols| then Err(TooManyFields)
      else
        var r := AppendRows(times + [row.time], AppendFields(cols, row.deltas), rest[1..]);
        FitsCons(rest, |cols|);
        ColumnsCons(rest);
        r
  }

  /** `csv_to_json` as written: the first row seeds one column per count and
      its time is never read, so `labels` holds the times of the later rows
      only. */
  function CsvToJson(rows: seq<Row>): (r: Result<Document>)
    ensures r.Ok? <==> Convertible(rows)
    ensures |rows| > 0 && |rows[0].deltas| == 0 ==> r == Err(EmptyField)
    ensures r.Ok? ==> r.value.labels == (if |rows| == 0 then [] else Times(rows[1..]))
    ensures r.Ok? ==> |r.value.datasets| == (if |rows| == 0 then 0 else |rows[0].deltas|)
    ensures r.Ok? ==> forall c :: 0 <= c < |r.value.datasets| ==>
      r.value.datasets[c] == Series(CpuLabel(c), Column(rows, c))
  {
    if |rows| == 0 then Ok(Document([], []))
    else
      var first := rows[0].deltas;
      if |first| == 0 then Err(EmptyField)
      else
        var cols := seq(|first|, c requires 0 <= c < |first| => [first[c]]);
        var acc :- AppendRows([], cols, rows[1..]);
        var data := acc.1;
        Ok(Document(acc.0, seq(|data|, c requires 0 <= c < |data| => Series(CpuLabel(c), data[c]))))
  }

  /** With rows of one width, the first row's time is lost: every series is
      one entry longer than `labels`. */
  lemma {:induction false} LabelsOneShort(rows: seq<Row>, w: nat)
    requires |rows| > 0 && w > 0
    requires forall j :: 0 <= j < |rows| ==> |rows[j].deltas| == w
    requires forall j :: 1 <= j < |rows| ==> TimeFieldParses(rows[j].time)
    ensures CsvToJson(rows).Ok?
    ensures forall c :: 0 <= c < |CsvToJson(rows).value.datasets| ==>
      |CsvToJson(rows).value.datasets[c].data| == |CsvToJson(rows).value.labels| + 1
  {
    assert Convertible(rows);
    forall c | 0 <= c < w {
      ColumnOfUniform(rows, c);
    }
  }

  /** Entry `j` of every series, in series order: one row read back. */
  function Entries(d: Document, j: nat): seq<int>
    requires forall c :: 0 <= c < |d.datasets| ==> j < |d.datasets[c].data|
  {
    seq(|d.datasets|, c requires 0 <= c < |d.datasets| => d.datasets[c].data[j])
  }

  /** Rows of one width can be read back from the document: every row after
      the first is its label and its entry in each series, and the first
      row's counts are each series' first entry. */
  lemma {:induction false} ReshapeRoundTrip(rows: seq<Row>, w: nat)
    requires |rows| > 0 && w > 0
    requires forall j :: 0 <= j < |rows| ==> |rows[j].deltas| == w
    requires forall j :: 1 <= j < |rows| ==> TimeFieldParses(rows[j].time)
    ensures CsvToJson(rows).Ok?
    ensures |CsvToJson(rows).value.datasets| == w
    ensures |CsvToJson(rows).value.labels| == |rows| - 1
    ensures forall c :: 0 <= c < w ==> |CsvToJson(rows).value.datasets[c].data| == |rows|
    ensures rows[0].deltas == Entries(CsvToJson(rows).value, 0)
    ensures forall j :: 1 <= j < |rows| ==>
      rows[j] == Row(CsvToJson(rows).value.labels[j - 1], Entries(CsvToJson(rows).value, j))
  {
    assert Convertible(rows);
    var d := CsvToJson(rows).value;
    forall c | 0 <= c < w
      ensures d.datasets[c].data == Column(rows, c)
      ensures |Column(rows, c)| == |rows|
      ensures forall j :: 0 <= j < |rows| ==> Column(rows, c)[j] == rows[j].deltas[c]
    {
      ColumnOfUniform(rows, c);
    }
    forall j | 0 <= j < |rows|
      ensures rows[j].deltas == Entries(d, j)
    {
      assert |Entries(d, j)| == w;
    }
    forall j | 1 <= j < |rows|
      ensures rows[j].time == d.labels[j - 1]
    {
      assert rows[1..][j - 1] == rows[j];
    }
  }

  /** `csv_to_json` as its own docstring describes it: the time of every row,
      the first included, labels the matching entry of each series. */
  function CsvToJsonIntended(rows: seq<Row>): (r: Result<Document>)
    ensures r.Ok? <==> Convertible(rows)
    ensures r.Ok? ==> r.value.labels == Times(rows)
    ensures r.Ok? ==> |r.value.datasets| == (if |rows| == 0 then 0 else |rows[0].deltas|)
    ensures r.Ok? ==> forall c :: 0 <= c < |r.value.datasets| ==>
      r.value.datasets[c] == Series(CpuLabel(c), Column(rows, c))
  {
    var d :- CsvToJson(rows);
    if |rows| == 0 then Ok(d) else Ok(d.(labels := [rows[0].time] + d.labels))
  }

  /** The corrected reshaping keeps labels and series aligned: with rows of
      one width, entry `j` of every series is labelled with row `j`'s time. */
  lemma {:induction false} IntendedAligned(rows: seq<Row>, w: nat)
    requires |rows| > 0 && w > 0
    requires forall j :: 0 <= j < |rows| ==> |rows[j].deltas| == w
    requires forall j :: 1 <= j < |rows| ==> TimeFieldParses(rows[j].time)
    ensures CsvToJsonIntended(rows).Ok?
    ensures |CsvToJsonIntended(rows).value.labels| == |rows|
    ensures forall j :: 0 <= j < |rows| ==> CsvToJsonIntended(rows).value.labels[j] == rows[j].time
    ensures |CsvToJsonIntended(rows).value.datasets| == w
    ensures forall c :: 0 <= c < w ==> |CsvToJsonIntended(rows).value.datasets[c].data| == |rows|
    ensures forall c, j :: 0 <= c < w && 0 <= j < |rows| ==>
      CsvToJsonIntended(rows).value.datasets[c].data[j] == rows[j].deltas[c]
  {
    assert Convertible(rows);
    forall c | 0 <= c < w {
      ColumnOfUniform(rows, c);
    }
  }
}
