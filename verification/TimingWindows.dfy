/** Component timing windows (`validate_timing_boundaries` of macos_image_observer.py). */
module TimingWindows {
  import opened Wrappers
  import opened LoaderLog

  datatype Record = Record(log: Log, processId: Option<nat>, timedOut: bool, outputLimited: bool, launched: bool,
                           exitKnown: bool)

  datatype Window = Window(id: string, start: nat, begin: nat, end: nat, pre: nat, inside: nat, post: nat)

  datatype Refusal =
    | RootPidUnavailable | ExpectedRowsInvalid | MarkerUnterminated | MarkerMalformed | MarkerPid | MarkerRow
    | MarkerTransition | MarkersMissing | LogNotClosed | RootPidMismatch | RecordIncomplete | DyldInWindow

  datatype Verdict = Verdict(complete: bool, ok: bool, reason: Option<Refusal>, rows: seq<Window>)

  const PHASES := [RowStart, SamplesBegin, SamplesEnd]

  predicate MentionsTiming(line: Line) {
    if line.Application? then !line.timing.Silent? else line.mentionsTiming
  }

  function DyldLines(lines: seq<Line>): seq<nat> {
    if lines == [] then []
    else DyldLines(lines[..|lines| - 1]) + if MentionsDyld(lines[|lines| - 1]) then [|lines|] else []
  }

  /** The numbers of the lines that mention timing. */
  function MarkLines(lines: seq<Line>): seq<nat> {
    if lines == [] then []
    else MarkLines(lines[..|lines| - 1]) + if MentionsTiming(lines[|lines| - 1]) then [|lines|] else []
  }

  lemma {:induction false} MarkLinesAre(lines: seq<Line>)
    ensures forall k | 0 <= k < |MarkLines(lines)| ::
              0 < MarkLines(lines)[k] <= |lines| && MentionsTiming(lines[MarkLines(lines)[k] - 1])
    ensures forall k, j | 0 <= k < j < |MarkLines(lines)| :: MarkLines(lines)[k] < MarkLines(lines)[j]
  {
    if lines != [] {
      MarkLinesAre(lines[..|lines| - 1]);
    }
  }

  lemma {:induction false} MarkLinesPrefix(lines: seq<Line>, n: nat)
    requires n <= |lines|
    ensures MarkLines(lines[..n]) <= MarkLines(lines)
    decreases |lines|
  {
    if n < |lines| {
      MarkLinesPrefix(lines[..|lines| - 1], n);
      assert lines[..|lines| - 1][..n] == lines[..n];
    } else {
      assert lines[..n] == lines;
    }
  }

  lemma {:induction false} DyldLinesAre(lines: seq<Line>, number: nat)
    ensures number in DyldLines(lines) <==> 0 < number <= |lines| && MentionsDyld(lines[number - 1])
  {
    if lines != [] {
      DyldLinesAre(lines[..|lines| - 1], number);
    }
  }

  /** The k-th marker of the expected rows. */
  predicate ExpectedMark(line: Line, pid: nat, rows: seq<string>, k: nat) {
    k / 3 < |rows| && line == Application(Marker(Some(pid), rows[k / 3], PHASES[k % 3]))
  }

  predicate MarksFollow(lines: seq<Line>, pid: nat, rows: seq<string>)
  {
    forall k: nat | k < |MarkLines(lines)| :: MarkFollows(lines, pid, rows, k)
  }

  predicate MarkFollows(lines: seq<Line>, pid: nat, rows: seq<string>, k: nat)
    requires k < |MarkLines(lines)|
  {
    var number := MarkLines(lines)[k];
    0 < number <= |lines| && ExpectedMark(lines[number - 1], pid, rows, k)
  }

  /** The timing lines are exactly the three markers of each expected row, in order, and the last line is whole. */
  predicate MarkersExact(log: Log, pid: nat, rows: seq<string>) {
    && |MarkLines(log.lines)| == 3 * |rows| && MarksFollow(log.lines, pid, rows)
    && (log.terminated || log.lines == [] || !MentionsTiming(log.lines[|log.lines| - 1]))
  }

  predicate RowsValid(isRow: string -> bool, rows: seq<string>) {
    (forall i | 0 <= i < |rows| :: isRow(rows[i])) && forall i, j | 0 <= i < j < |rows| :: rows[i] != rows[j]
  }

  predicate OwnPid(pid: nat, log: Log) {
    FirstDyld(log.lines).Some? ==> FirstDyld(log.lines).value.pid == pid
  }

  predicate Complete(syntax: Syntax, isRow: string -> bool, record: Record, rows: seq<string>) {
    && record.processId.Some? && RowsValid(isRow, rows) && MarkersExact(record.log, record.processId.value, rows)
    && Closed(syntax, record.log) && OwnPid(record.processId.value, record.log)
    && !record.timedOut && !record.outputLimited && record.launched && record.exitKnown
  }

  function CountBelow(numbers: seq<nat>, bound: nat): nat {
    if numbers == [] then 0 else CountBelow(numbers[1..], bound) + if numbers[0] < bound then 1 else 0
  }

  function CountBetween(numbers: seq<nat>, low: nat, high: nat): nat {
    if numbers == [] then 0 else CountBetween(numbers[1..], low, high) + if low < numbers[0] < high then 1 else 0
  }

  function CountAbove(numbers: seq<nat>, bound: nat): nat {
    if numbers == [] then 0 else CountAbove(numbers[1..], bound) + if numbers[0] > bound then 1 else 0
  }

  /** The window of row `k`, read off the marker lines. */
  function WindowOf(lines: seq<Line>, rows: seq<string>, k: nat): Window
    requires k < |rows| && 3 * k + 2 < |MarkLines(lines)|
  {
    var marks, dyld := MarkLines(lines), DyldLines(lines);
    Window(rows[k], marks[3 * k], marks[3 * k + 1], marks[3 * k + 2], CountBelow(dyld, marks[3 * k + 1]),
           CountBetween(dyld, marks[3 * k + 1], marks[3 * k + 2]), CountAbove(dyld, marks[3 * k + 2]))
  }

  predicate InWindow(lines: seq<Line>, window: Window, number: nat) {
    window.begin < number < window.end && number in DyldLines(lines)
  }

  datatype Span = Span(id: string, start: nat, begin: nat, end: nat)

  predicate SpansOf(spans: seq<Span>, lines: seq<Line>, rows: seq<string>, n: nat)
  {
    && |spans| == n <= |rows| && 3 * n <= |MarkLines(lines)|
    && forall k | 0 <= k < n ::
         var marks := MarkLines(lines);
         spans[k] == Span(rows[k], marks[3 * k], marks[3 * k + 1], marks[3 * k + 2])
  }

  lemma MarksMore(lines: seq<Line>, n: nat, pid: nat, rows: seq<string>)
    requires n < |lines| && MarksFollow(lines[..n], pid, rows)
    ensures var before := MarkLines(lines[..n]);
            && MarkLines(lines[..n + 1]) == (if MentionsTiming(lines[n]) then before + [n + 1] else before)
            && (MarksFollow(lines[..n + 1], pid, rows) <==>
                  (MentionsTiming(lines[n]) ==> ExpectedMark(lines[n], pid, rows, |before|)))
  {
    hide ExpectedMark, MentionsTiming;
    var front, more := lines[..n], lines[..n + 1];
    assert more[..n] == front && more[n] == lines[n];
    MarkLinesAre(front);
    forall k: nat | k < |MarkLines(front)| ensures MarkFollows(more, pid, rows, k) {
      assert MarkFollows(front, pid, rows, k);
    }
    if MentionsTiming(lines[n]) {
      assert MarkFollows(more, pid, rows, |MarkLines(front)|) <==> ExpectedMark(lines[n], pid, rows, |MarkLines(front)|);
    }
  }

  /** A marker that does not follow is final: no continuation of the log is exact. */
  lemma BadMark(log: Log, n: nat, pid: nat, rows: seq<string>)
    requires n < |log.lines| && MarksFollow(log.lines[..n], pid, rows) && MentionsTiming(log.lines[n])
    requires !ExpectedMark(log.lines[n], pid, rows, |MarkLines(log.lines[..n])|)
    ensures !MarkersExact(log, pid, rows)
  {
    hide ExpectedMark, MentionsTiming;
    MarksMore(log.lines, n, pid, rows);
    MarkLinesPrefix(log.lines, n + 1);
    var k := |MarkLines(log.lines[..n])|;
    assert MarkLines(log.lines)[k] == n + 1;
    assert !MarkFollows(log.lines, pid, rows, k);
  }

  /** The marker loop: the windows of exactly marked rows. */
  method FindWindows(log: Log, pid: nat, rows: seq<string>) returns (spans: seq<Span>, refusal: Option<Refusal>)
    ensures refusal.None? <==> MarkersExact(log, pid, rows)
    ensures refusal.None? ==> SpansOf(spans, log.lines, rows, |rows|)
  {
    hide MentionsTiming, MarkLines, MarksFollow;
    var rowIndex, phaseIndex, positions := 0, 0, [];
    spans, refusal := [], None;
    FindStart(log.lines, pid, rows);
    for i := 0 to |log.lines|
      invariant MarksFollow(log.lines[..i], pid, rows)
      invariant |MarkLines(log.lines[..i])| == 3 * rowIndex + phaseIndex && 0 <= phaseIndex < 3
      invariant positions == MarkLines(log.lines[..i])[3 * rowIndex..]
      invariant SpansOf(spans, log.lines[..i], rows, rowIndex)
      invariant i == |log.lines| && i > 0 ==> log.terminated || !MentionsTiming(log.lines[i - 1])
    {
      var line := log.lines[i];
      MarksMore(log.lines, i, pid, rows);
      if !MentionsTiming(line) {
        continue;
      }
      if i + 1 == |log.lines| && !log.terminated {
        return [], Some(MarkerUnterminated);
      }
      ghost var before := MarkLines(log.lines[..i]);
      if !line.Application? || !line.timing.Marker? {
        BadMark(log, i, pid, rows);
        return [], Some(MarkerMalformed);
      }
      if line.timing.pid != Some(pid) {
        BadMark(log, i, pid, rows);
        return [], Some(MarkerPid);
      }
      if !(rowIndex < |rows| && line.timing.row == rows[rowIndex]) {
        BadMark(log, i, pid, rows);
        return [], Some(MarkerRow);
      }
      if line.timing.phase != PHASES[phaseIndex] {
        BadMark(log, i, pid, rows);
        return [], Some(MarkerTransition);
      }
      positions := positions + [i + 1];
      phaseIndex := phaseIndex + 1;
      if phaseIndex == |PHASES| {
        spans := spans + [Span(line.timing.row, positions[0], positions[1], positions[2])];
        rowIndex := rowIndex + 1;
        phaseIndex, positions := 0, [];
      }
    }
    assert log.lines[..|log.lines|] == log.lines;
    if !(rowIndex == |rows| && phaseIndex == 0) {
      return [], Some(MarkersMissing);
    }
  }

  lemma FindStart(lines: seq<Line>, pid: nat, rows: seq<string>)
    ensures MarksFollow(lines[..0], pid, rows) && MarkLines(lines[..0]) == []
  {
  }

  /** `validate_timing_boundaries`. */
  method ValidateTiming(syntax: Syntax, isRow: string -> bool, record: Record, rows: seq<string>)
    returns (verdict: Verdict)
    ensures verdict.complete <==> Complete(syntax, isRow, record, rows)
    ensures verdict.complete ==>
              && |verdict.rows| == |rows| && |MarkLines(record.log.lines)| == 3 * |rows|
              && forall k | 0 <= k < |rows| :: verdict.rows[k] == WindowOf(record.log.lines, rows, k)
    ensures verdict.ok <==> verdict.complete && forall k, number | 0 <= k < |verdict.rows| ::
                              !InWindow(record.log.lines, verdict.rows[k], number)
  {
    hide MarksFollow, Closed, DyldLines, MarkLines, FirstDyld;
    verdict := Verdict(false, false, None, []);
    if record.processId.None? {
      return verdict.(reason := Some(RootPidUnavailable));
    }
    var pid := record.processId.value;
    if !RowsValid(isRow, rows) {
      return verdict.(reason := Some(ExpectedRowsInvalid));
    }
    var spans, refusal := FindWindows(record.log, pid, rows);
    if refusal.Some? {
      return verdict.(reason := refusal);
    }
    var parsed := ParseLog(syntax, record.log);
    if parsed.reason.Some? {
      return verdict.(reason := Some(LogNotClosed));
    }
    if parsed.pid.Some? && parsed.pid.value != pid {
      return verdict.(reason := Some(RootPidMismatch));
    }
    if record.timedOut || record.outputLimited || !record.launched || !record.exitKnown {
      return verdict.(reason := Some(RecordIncomplete));
    }
    var dyld, windows := DyldLines(record.log.lines), [];
    for k := 0 to |spans|
      invariant |windows| == k && forall j | 0 <= j < k :: windows[j] == WindowOf(record.log.lines, rows, j)
    {
      var span := spans[k];
      windows := windows + [Window(span.id, span.start, span.begin, span.end, CountBelow(dyld, span.begin),
                                   CountBetween(dyld, span.begin, span.end), CountAbove(dyld, span.end))];
    }
    var clean := true;
    for k := 0 to |windows|
      invariant clean <==> forall j, number | 0 <= j < k :: !InWindow(record.log.lines, windows[j], number)
    {
      BetweenNone(record.log.lines, windows[k]);
      if windows[k].inside != 0 {
        clean := false;
      }
    }
    verdict := Verdict(true, clean, if clean then None else Some(DyldInWindow), windows);
  }

  lemma {:induction false} CountZero(numbers: seq<nat>, low: nat, high: nat)
    ensures CountBetween(numbers, low, high) == 0 <==> forall number | low < number < high :: number !in numbers
  {
    if numbers != [] {
      CountZero(numbers[1..], low, high);
      assert forall number :: number in numbers <==> number == numbers[0] || number in numbers[1..];
      if low < numbers[0] < high {
        assert numbers[0] in numbers;
      }
    }
  }

  lemma BetweenNone(lines: seq<Line>, window: Window)
    requires window.inside == CountBetween(DyldLines(lines), window.begin, window.end)
    ensures window.inside == 0 <==> forall number :: !InWindow(lines, window, number)
  {
    CountZero(DyldLines(lines), window.begin, window.end);
    hide CountBetween, DyldLines;
    if window.inside == 0 {
      forall number ensures !InWindow(lines, window, number) {
      }
    } else {
      var number :| window.begin < number < window.end && number in DyldLines(lines);
      assert InWindow(lines, window, number);
    }
  }

  lemma {:induction false} CountsAddUp(numbers: seq<nat>, low: nat, high: nat)
    requires low < high && low !in numbers && high !in numbers
    ensures CountBelow(numbers, low) + CountBetween(numbers, low, high) + CountAbove(numbers, high) == |numbers|
  {
    if numbers != [] {
      assert numbers[0] in numbers;
      CountsAddUp(numbers[1..], low, high);
    }
  }

  /** In complete evidence the windows are disjoint and increasing, and each splits all loader lines in three. */
  lemma WindowsPartition(syntax: Syntax, isRow: string -> bool, record: Record, rows: seq<string>, k: nat)
    requires Complete(syntax, isRow, record, rows) && k < |rows|
    ensures |MarkLines(record.log.lines)| == 3 * |rows|
    ensures var lines := record.log.lines;
            var window := WindowOf(lines, rows, k);
            && window.id == rows[k] && 0 < window.start < window.begin < window.end <= |lines|
            && (k + 1 < |rows| ==> window.end < WindowOf(lines, rows, k + 1).start)
            && window.pre + window.inside + window.post == |DyldLines(lines)|
  {
    hide Closed, RowsValid, OwnPid, DyldLines;
    var lines, pid := record.log.lines, record.processId.value;
    var marks := MarkLines(lines);
    MarkLinesAre(lines);
    hide MarkLines;
    assert MarkFollows(lines, pid, rows, 3 * k + 1) && MarkFollows(lines, pid, rows, 3 * k + 2);
    DyldLinesAre(lines, marks[3 * k + 1]);
    DyldLinesAre(lines, marks[3 * k + 2]);
    CountsAddUp(DyldLines(lines), marks[3 * k + 1], marks[3 * k + 2]);
  }
}
