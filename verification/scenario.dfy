/** Worked examples: three snapshots of two CPUs taken at 00:00:00,
    00:00:10 and 00:00:30, with counts (5, 10), (8, 15) and (12, 20) on a
    single IRQ line; and a split on a separator that overlaps itself. */
module Scenario {
  import opened Outcomes
  import opened Text
  import opened Csv
  import opened Snapshots
  import opened Pipeline

  const Snaps: seq<Snapshot> :=
    [Snapshot(0, Some([5, 10])), Snapshot(10, Some([8, 15])), Snapshot(30, Some([12, 20]))]

  const Rows: seq<Row> := [Row(0, [3, 5]), Row(20, [4, 5])]

  /** The baseline yields no row; the two rows are timed from the second
      snapshot and hold the differences of consecutive totals. */
  lemma {:induction false} ThreeSnapshotsRows()
    ensures RunSnapshots(Start, Snaps) == Ok(Trace(Rows, State(Some(10), Some([12, 20]))))
  {
    SteadyRun(Snaps, 2);
    var r := RunSnapshots(Start, Snaps).value;
    var d0 := ZipSub([8, 15], [5, 10]);
    assert |d0| == 2 && d0[0] == 3 && d0[1] == 5;
    assert d0 == [3, 5];
    var d1 := ZipSub([12, 20], [8, 15]);
    assert |d1| == 2 && d1[0] == 4 && d1[1] == 5;
    assert d1 == [4, 5];
    assert |r.rows| == 2;
    assert r.rows[0] == Row(0, d0);
    assert r.rows[1] == Row(20, d1);
    assert r.rows == Rows;
  }

  /** As written, the document's `labels` is [20] while each series has two
      entries: the first row's time zero is dropped. */
  lemma {:induction false} ThreeSnapshotsAsWritten()
    ensures CsvToJson(Rows) == Ok(Document([20], [Series("cpu0", [3, 4]), Series("cpu1", [5, 5])]))
  {
    var d := CsvToJson(Rows).value;
    assert Times(Rows[1..]) == [20];
    assert Column(Rows, 0) == [3, 4] && Column(Rows, 1) == [5, 5];
    assert Decimal(0) == "0" && Decimal(1) == "1";
    assert d.labels == [20];
    assert |d.datasets| == 2;
    assert d.datasets[0] == Series("cpu0", [3, 4]);
    assert d.datasets[1] == Series("cpu1", [5, 5]);
    assert d.datasets == [Series("cpu0", [3, 4]), Series("cpu1", [5, 5])];
  }

  /** With the corrected reshaping, `labels` is [0, 20], one per entry of
      each series. */
  lemma {:induction false} ThreeSnapshotsIntended()
    ensures CsvToJsonIntended(Rows) == Ok(Document([0, 20], [Series("cpu0", [3, 4]), Series("cpu1", [5, 5])]))
  {
    ThreeSnapshotsAsWritten();
    assert [Rows[0].time] + [20] == [0, 20];
  }

  /** A separator that overlaps itself: "aaa".split("aa") is ['', 'a'],
      cut at the leftmost "aa". */
  lemma {:induction false} OverlappingSeparator()
    ensures Split("aaa", "aa") == ["", "a"]
  {
  }
}
