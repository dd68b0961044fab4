/** `format_line` (scripts/parse_interrupts.py:14-45): reading one record of
    the capture into a snapshot of per-CPU totals, and turning consecutive
    snapshots into CSV rows.

    The module-level `t0` and the `prev_interrupts` argument become the
    explicit `State`. The record is read in two steps, `ReadSnapshot` and
    `Advance`; every error the first step raises comes before the one the
    second can raise, so the split keeps the script's behaviour. */
module Snapshots {
  import opened Outcomes
  import opened Text
  import opened Csv

  /** `datetime.strptime(line, '%Y%m%d-%H%M%S')`, giving whole seconds, or
      `None` where strptime raises. Calendar parsing is not part of this model. */
  type TimeParser = string -> Option<int>

  /** The IRQ-line regular expression built for `n` CPUs, as a function: the
      `n` counts of a line it matches, or `None` for a line it skips. */
  type Matcher = m: (string, nat) -> Option<seq<int>>
    | forall line, n :: m(line, n).Some? ==> |m(line, n).value| == n
    witness (line: string, n: nat) => None

  /** One record read: its timestamp and, if any IRQ line matched, the
      per-CPU totals (`None` is the script's `False`). */
  datatype Snapshot = Snapshot(time: int, totals: Option<seq<int>>)

  /** Python truthiness of the totals slot: `False` and the empty list are
      both false. */
  predicate Truthy(v: Option<seq<int>>) {
    v.Some? && |v.value| > 0
  }

  /** The CPU count of a header line: `len(header.split('CPU')) - 1`. */
  function CpuCount(header: string): (n: nat)
    ensures n == Count(header, "CPU")
  {
    SplitCount(header, "CPU");
    |Split(header, "CPU")| - 1
  }

  /** The length of `zip(a, b)` for operands of lengths `a` and `b`. */
  function Min(a: int, b: int): int {
    if a <= b then a else b
  }

  /** `[i + j for i, j in zip(a, b)]`. */
  function ZipAdd(a: seq<int>, b: seq<int>): (r: seq<int>)
    ensures |r| == Min(|a|, |b|)
    ensures forall i :: 0 <= i < |r| ==> r[i] == a[i] + b[i]
  {
    if |a| == 0 || |b| == 0 then [] else [a[0] + b[0]] + ZipAdd(a[1..], b[1..])
  }

  /** `[i - j for i, j in zip(a, b)]`: no clamping, so entries may be negative. */
  function ZipSub(a: seq<int>, b: seq<int>): (r: seq<int>)
    ensures |r| == Min(|a|, |b|)
    ensures forall i :: 0 <= i < |r| ==> r[i] == a[i] - b[i]
  {
    if |a| == 0 || |b| == 0 then [] else [a[0] - b[0]] + ZipSub(a[1..], b[1..])
  }

  /** Some line of `lines` is an IRQ line for `n` CPUs. */
  predicate AnyMatch(lines: seq<string>, n: nat, matchLine: Matcher) {
    exists i :: 0 <= i < |lines| && matchLine(lines[i], n).Some?
  }

  /** CPU `c`'s count summed over the IRQ lines of `lines`. */
  function ColumnSum(lines: seq<string>, n: nat, matchLine: Matcher, c: nat): int
    requires c < n
  {
    if |lines| == 0 then 0
    else
      (match matchLine(lines[0], n) case None => 0 case Some(v) => v[c])
      + ColumnSum(lines[1..], n, matchLine, c)
  }

  /** The summation loop over the IRQ lines, with `acc` the value of
      `interrupts` so far: the first matching line replaces a false `acc`,
      later ones are added to it element-wise, other lines are skipped. */
  function SumInterrupts(acc: Option<seq<int>>, lines: seq<string>, n: nat, matchLine: Matcher)
    : (r: Option<seq<int>>)
    requires acc.Some? ==> |acc.value| == n
    ensures r.None? <==> acc.None? && !AnyMatch(lines, n, matchLine)
    ensures r.Some? ==> |r.value| == n
    ensures r.Some? ==> forall c :: 0 <= c < n ==>
      r.value[c] == (if acc.Some? then acc.value[c] else 0) + ColumnSum(lines, n, matchLine, c)
    decreases |lines|
  {
    if |lines| == 0 then acc
    else
      var next := match matchLine(lines[0], n)
        case None => acc
        case Some(vals) => if !Truthy(acc) then Some(vals) else Some(ZipAdd(vals, acc.value));
      var r := SumInterrupts(next, lines[1..], n, matchLine);
      assert AnyMatch(lines, n, matchLine) <==>
        matchLine(lines[0], n).Some? || AnyMatch(lines[1..], n, matchLine)
      by {
        if AnyMatch(lines[1..], n, matchLine) {
          var i :| 0 <= i < |lines[1..]| && matchLine(lines[1..][i], n).Some?;
          assert lines[i + 1] == lines[1..][i];
        }
        if AnyMatch(lines, n, matchLine) && matchLine(lines[0], n).None? {
          var i :| 0 <= i < |lines| && matchLine(lines[i], n).Some?;
          assert lines[1..][i - 1] == lines[i];
        }
      }
      r
  }

  /** The most groups the regular-expression compiler of Python 2.7 accepts
      in one pattern; the IRQ-line pattern has one per CPU plus the IRQ name. */
  const MaxGroups := 100

  /** The IRQ-line pattern for a header announcing `n` CPUs is refused. */
  predicate PatternTooLarge(n: nat) {
    // n + 1 groups written in the pattern, plus group 0 (the whole match),
    // which the compiler counts too
    n + 2 > MaxGroups
  }

  /** The limit is first reached by a header announcing 99 CPUs. */
  lemma GroupLimitThreshold()
    ensures PatternTooLarge(99) && !PatternTooLarge(98)
  {
  }

  /** Reads one record (the text after a timestamp marker): its first line is
      the timestamp, its second the CPU header, and the rest are summed as
      IRQ lines (scripts/parse_interrupts.py:18, 23-37). The pattern is only
      compiled once there is an IRQ line to match. */
  function ReadSnapshot(record: string, parseTime: TimeParser, matchLine: Matcher): (r: Result<Snapshot>)
    ensures var lines := Split(record, "\n");
      && (r.Ok? <==> parseTime(lines[0]).Some? && |lines| >= 2
                     && !(|lines| > 2 && PatternTooLarge(Count(lines[1], "CPU"))))
      && (parseTime(lines[0]).None? ==> r == Err(BadTimestamp))
      && (parseTime(lines[0]).Some? && |lines| < 2 ==> r == Err(MissingHeader))
      && (parseTime(lines[0]).Some? && |lines| > 2 && PatternTooLarge(Count(lines[1], "CPU")) ==>
            r == Err(TooManyGroups))
      && (r.Ok? ==> r.value.time == parseTime(lines[0]).value)
    ensures r.Ok? ==> var lines := Split(record, "\n");
      && (r.value.totals.None? <==> !AnyMatch(lines[2..], Count(lines[1], "CPU"), matchLine))
      && (r.value.totals.Some? ==>
            && |r.value.totals.value| == Count(lines[1], "CPU")
            && forall c :: 0 <= c < |r.value.totals.value| ==>
                 r.value.totals.value[c] == ColumnSum(lines[2..], Count(lines[1], "CPU"), matchLine, c))
  {
    var lines := Split(record, "\n");
    match parseTime(lines[0])
    case None => Err(BadTimestamp)
    case Some(t) =>
      if |lines| < 2 then Err(MissingHeader)
      else if |lines| > 2 && PatternTooLarge(CpuCount(lines[1])) then Err(TooManyGroups)
      else Ok(Snapshot(t, SumInterrupts(None, lines[2..], CpuCount(lines[1]), matchLine)))
  }

  /** What `format_line` keeps between calls: the anchor `t0` (`None` where
      the script holds -1) and the previous totals (`None` for `False`). */
  datatype State = State(anchor: Option<int>, prev: Option<seq<int>>)

  /** The state before the first record. */
  const Start := State(None, None)

  /** One call's output: a CSV row, or none for the empty string, and the
      state handed to the next call. */
  datatype Step = Step(row: Option<Row>, next: State)

  /** The anchoring and delta half of `format_line`
      (scripts/parse_interrupts.py:19-20, 39-45). */
  function Advance(st: State, snap: Snapshot): (r: Result<Step>)
    ensures r.Err? <==> Truthy(st.prev) && snap.totals.None?
    ensures r.Err? ==> r.error == NoInterrupts
    ensures r.Ok? ==> r.value.next.prev == snap.totals
    ensures r.Ok? && !Truthy(st.prev) ==> r.value.row.None? && r.value.next.anchor.None?
    ensures r.Ok? && Truthy(st.prev) ==>
      var origin := if st.anchor.Some? then st.anchor.value else snap.time;
      && r.value.next.anchor == Some(origin)
      && r.value.row.Some?
      && r.value.row.value.time == snap.time - origin
      && |r.value.row.value.deltas| == Min(|snap.totals.value|, |st.prev.value|)
      && forall i :: 0 <= i < |r.value.row.value.deltas| ==>
           r.value.row.value.deltas[i] == snap.totals.value[i] - st.prev.value[i]
  {
    var anchor := if st.anchor.None? then snap.time else st.anchor.value;
    if Truthy(st.prev) then
      match snap.totals
      case None => Err(NoInterrupts)
      case Some(current) =>
        Ok(Step(Some(Row(snap.time - anchor, ZipSub(current, st.prev.value))), State(Some(anchor), snap.totals)))
    else
      Ok(Step(None, State(None, snap.totals)))
  }

  /** Past the baseline, a snapshot whose totals equal the previous ones
      yields a row of zeros, one per CPU. */
  lemma {:induction false} UnchangedTotalsZeroRow(st: State, snap: Snapshot)
    requires Truthy(st.prev) && snap.totals == st.prev
    ensures Advance(st, snap).Ok?
    ensures var row := Advance(st, snap).value.row;
      row.Some? && row.value.deltas == seq(|st.prev.value|, i => 0)
  {
    var deltas := Advance(st, snap).value.row.value.deltas;
    assert |deltas| == |st.prev.value|;
    assert forall i :: 0 <= i < |deltas| ==> deltas[i] == 0;
  }

  /** `format_line` on one record. */
  function FormatLine(record: string, st: State, parseTime: TimeParser, matchLine: Matcher): Result<Step> {
    var snap :- ReadSnapshot(record, parseTime, matchLine);
    Advance(st, snap)
  }
}
