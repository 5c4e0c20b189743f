/** Calibration envelopes and the grading of a phase (`scalar_envelope` to `grade_rows`). */
module MetricGrading {
  import opened Wrappers
  import opened OrderStatistics
  import opened Stages
  import opened TrialGrading

  datatype Contract =
    | ScalarContract(quantum: real, resolution: real)
    | ResidentContract(hardCeiling: real, floor: real)
    | TrialContract(hardCeiling: real, tolerance: real)

  datatype Envelope =
    | Scalar(ceiling: real, allowance: real, resolution: real)
    | Resident(ceiling: real, allowance: real)
    | Trial(ceiling: real, tolerance: real)

  datatype Refusal =
    | SixValuesRequired | NegativeObservation | PositiveQuantumAndResolution | CalibrationNoise
    | ResidentBytes | ResidentRepeatability | TrialCeiling | TrialInconclusive

  function Largest(s: seq<real>): real
    requires s != []
  {
    Kth(s, |s| - 1)
  }

  function Smallest(s: seq<real>): real
    requires s != []
  {
    Kth(s, 0)
  }

  function Spread(s: seq<real>): real
    requires s != []
  {
    Largest(s) - Smallest(s)
  }

  function Max(a: real, b: real): real {
    if a < b then b else a
  }

  // ----- envelopes ------------------------------------------------------------------------------

  function ScalarEnvelope(values: seq<real>, quantum: real, resolution: real): Result<Envelope, Refusal> {
    if |values| != 6 then Refused(SixValuesRequired)
    else if exists v | v in values :: v < 0.0 then Refused(NegativeObservation)
    else if quantum <= 0.0 || resolution <= 0.0 then Refused(PositiveQuantumAndResolution)
    else if Spread(values) / Max(Median(values), 2.0 * resolution) > 0.15 then Refused(CalibrationNoise)
    else
      var allowance := Max(Spread(values), 2.0 * resolution);
      var ticks := (Largest(values) + allowance) / quantum;
      Ok(Scalar(quantum * Ceiling(ticks) as real, allowance, resolution))
  }

  function ResidentEnvelope(values: seq<real>, hardCeiling: real, floor: real): Result<Envelope, Refusal> {
    if |values| != 6 || exists v | v in values :: !(0.0 < v <= hardCeiling) then Refused(ResidentBytes)
    else if Spread(values) > Median(values) * 0.15 then Refused(ResidentRepeatability)
    else Ok(Resident(hardCeiling, Max(Spread(values), floor)))
  }

  function TrialEnvelope(values: seq<real>, hardCeiling: real, tolerance: real): Result<Envelope, Refusal> {
    if |values| != 6 then Refused(SixValuesRequired)
    else if exists v | v in values :: v < 0.0 then Refused(NegativeObservation)
    else if Largest(values) > hardCeiling then Refused(TrialCeiling)
    else if CentralFourSpread(values) > tolerance then Refused(TrialInconclusive)
    else Ok(Trial(hardCeiling, tolerance))
  }

  /** `derive_envelopes`, for one metric. */
  function Derive(contract: Contract, values: seq<real>): Result<Envelope, Refusal> {
    match contract
    case ScalarContract(quantum, resolution) => ScalarEnvelope(values, quantum, resolution)
    case ResidentContract(hardCeiling, floor) => ResidentEnvelope(values, hardCeiling, floor)
    case TrialContract(hardCeiling, tolerance) => TrialEnvelope(values, hardCeiling, tolerance)
  }

  // ----- grading --------------------------------------------------------------------------------

  datatype Issue =
    | IncompleteSchedule
    | Unavailable(id: nat, name: string)
    | AboveCeiling(id: nat, name: string)
    | TrialIssue(name: string, finding: Finding)
    | Noise(role: Role, name: string)
    | OrderOf(role: Role, name: string)
    | DriftOf(role: Role, name: string)
    | Bias(name: string)
    | NoBenefit(name: string)
    | ResidentRegression(name: string)

  datatype Metric = Metric(name: string, envelope: Envelope)

  function LimitIssue(row: Row, metric: Metric): seq<Issue> {
    if metric.name !in row.metrics then [Unavailable(row.slot.id, metric.name)]
    else if row.metrics[metric.name] > metric.envelope.ceiling then [AboveCeiling(row.slot.id, metric.name)] else []
  }

  /** `invocation_limits`. */
  function LimitIssues(row: Row, metrics: seq<Metric>): seq<Issue> {
    if metrics == [] then []
    else LimitIssues(row, metrics[..|metrics| - 1]) + LimitIssue(row, metrics[|metrics| - 1])
  }

  function AllLimitIssues(rows: seq<Row>, metrics: seq<Metric>): seq<Issue> {
    if rows == [] then []
    else AllLimitIssues(rows[..|rows| - 1], metrics) + LimitIssues(rows[|rows| - 1], metrics)
  }

  predicate Noisy(values: seq<real>, stage: Stage, e: Envelope)
    requires values != [] && !e.Trial? && (e.Scalar? ==> e.resolution > 0.0)
  {
    if e.Resident? then Spread(values) > Median(values) * 0.15
    else if stage.Comparison? then Spread(values) > e.allowance
    else Spread(values) / Max(Median(values), 2.0 * e.resolution) > 0.15
  }

  /** Noise, order and drift of one role. */
  function RoleIssues(selected: seq<Row>, stage: Stage, role: Role, name: string, e: Envelope): seq<Issue>
    requires !e.Trial? && (e.Scalar? ==> e.resolution > 0.0)
  {
    if |selected| != 6 || !Observed(selected, name) then []
    else
      (if Noisy(Values(selected, name), stage, e) then [Noise(role, name)] else [])
      + (if OrderFails(selected, name, e.allowance) then [OrderOf(role, name)] else [])
      + (if DriftFails(selected, name, e.allowance) then [DriftOf(role, name)] else [])
  }

  /** Bias of a control, benefit and resident regression of a comparison. */
  function MedianIssues(base: seq<Row>, other: seq<Row>, stage: Stage, name: string, e: Envelope, benefit: Option<string>)
    : seq<Issue>
    requires !e.Trial?
  {
    if |base| != 6 || |other| != 6 || !Observed(base, name) || !Observed(other, name) then []
    else
      var difference := Median(Values(base, name)) - Median(Values(other, name));
      (if stage.Control? && Abs(difference) > e.allowance then [Bias(name)] else [])
      + (if stage.Comparison? && Some(name) == benefit && difference <= e.allowance then [NoBenefit(name)] else [])
      + (if stage.Comparison? && e.Resident? && -difference > e.allowance then [ResidentRegression(name)] else [])
  }

  function TrialIssues(name: string, findings: seq<Finding>): (r: seq<Issue>)
    ensures |r| == |findings|
  {
    seq(|findings|, i requires 0 <= i < |findings| => TrialIssue(name, findings[i]))
  }

  predicate MetricOk(m: Metric) {
    m.envelope.Scalar? ==> m.envelope.resolution > 0.0
  }

  function MetricIssues(rows: seq<Row>, stage: Stage, m: Metric, benefit: Option<string>): seq<Issue>
    requires MetricOk(m)
  {
    if m.envelope.Trial? then TrialIssues(m.name, Findings(rows, stage, m.name, m.envelope.tolerance))
    else
      var base, other := Selected(rows, Baseline), Selected(rows, OtherRole(stage));
      RoleIssues(base, stage, Baseline, m.name, m.envelope)
      + RoleIssues(other, stage, OtherRole(stage), m.name, m.envelope)
      + MedianIssues(base, other, stage, m.name, m.envelope, benefit)
  }

  function AllMetricIssues(rows: seq<Row>, stage: Stage, metrics: seq<Metric>, benefit: Option<string>): seq<Issue>
    requires forall m | m in metrics :: MetricOk(m)
  {
    if metrics == [] then []
    else AllMetricIssues(rows, stage, metrics[..|metrics| - 1], benefit)
         + MetricIssues(rows, stage, metrics[|metrics| - 1], benefit)
  }

  predicate OnSchedule(rows: seq<Row>, stage: Stage) {
    |rows| == Slots(stage) && forall i | 0 <= i < |rows| :: rows[i].slot == SlotAt(stage, Baseline, i)
  }

  /** All issues of a phase, in the order in which they are reported. */
  function Grade(rows: seq<Row>, stage: Stage, metrics: seq<Metric>, benefit: Option<string>): seq<Issue>
    requires forall m | m in metrics :: MetricOk(m)
  {
    (if OnSchedule(rows, stage) then [] else [IncompleteSchedule])
    + AllLimitIssues(rows, metrics)
    + (if stage.Control? || stage.Comparison? then AllMetricIssues(rows, stage, metrics, benefit) else [])
  }

  /** `invocation_limits`: the loop over envelopes. */
  method InvocationLimits(row: Row, metrics: seq<Metric>) returns (failures: seq<Issue>)
    ensures failures == LimitIssues(row, metrics)
  {
    failures := [];
    for i := 0 to |metrics|
      invariant failures == LimitIssues(row, metrics[..i])
    {
      assert metrics[..i + 1][..i] == metrics[..i];
      failures := failures + LimitIssue(row, metrics[i]);
    }
    assert metrics[..|metrics|] == metrics;
  }

  method LimitAll(rows: seq<Row>, metrics: seq<Metric>) returns (failures: seq<Issue>)
    ensures failures == AllLimitIssues(rows, metrics)
  {
    hide LimitIssues;
    failures := [];
    for i := 0 to |rows|
      invariant failures == AllLimitIssues(rows[..i], metrics)
    {
      assert rows[..i + 1][..i] == rows[..i];
      var limits := InvocationLimits(rows[i], metrics);
      failures := failures + limits;
    }
    assert rows[..|rows|] == rows;
  }

  method GradeMetrics(rows: seq<Row>, stage: Stage, metrics: seq<Metric>, benefit: Option<string>)
    returns (failures: seq<Issue>)
    requires (forall m | m in metrics :: MetricOk(m)) && (forall row | row in rows :: row.slot.pair < 6)
    ensures failures == AllMetricIssues(rows, stage, metrics, benefit)
  {
    hide MetricIssues;
    failures := [];
    for i := 0 to |metrics|
      invariant forall m | m in metrics[..i] :: MetricOk(m)
      invariant failures == AllMetricIssues(rows, stage, metrics[..i], benefit)
    {
      assert metrics[..i + 1][..i] == metrics[..i];
      var graded := GradeMetric(rows, stage, metrics[i], benefit);
      failures := failures + graded;
    }
    assert metrics[..|metrics|] == metrics;
  }

  /** `grade_rows`. */
  method GradeRows(rows: seq<Row>, stage: Stage, metrics: seq<Metric>, benefit: Option<string>)
    returns (failures: seq<Issue>)
    requires (forall m | m in metrics :: MetricOk(m)) && (forall row | row in rows :: row.slot.pair < 6)
    ensures failures == Grade(rows, stage, metrics, benefit)
  {
    hide AllLimitIssues, AllMetricIssues, OnSchedule;
    var limits := LimitAll(rows, metrics);
    failures := (if OnSchedule(rows, stage) then [] else [IncompleteSchedule]) + limits;
    if stage.Control? || stage.Comparison? {
      var graded := GradeMetrics(rows, stage, metrics, benefit);
      failures := failures + graded;
    }
  }

  method GradeMetric(rows: seq<Row>, stage: Stage, m: Metric, benefit: Option<string>) returns (failures: seq<Issue>)
    requires MetricOk(m) && forall row | row in rows :: row.slot.pair < 6
    ensures failures == MetricIssues(rows, stage, m, benefit)
  {
    hide Findings, RoleIssues, MedianIssues;
    if m.envelope.Trial? {
      var findings := TrialFindings(rows, stage, m.name, m.envelope.tolerance);
      return TrialIssues(m.name, findings);
    }
    failures := [];
    var roles := [Baseline, OtherRole(stage)];
    for k := 0 to 2
      invariant k == 0 ==> failures == []
      invariant k == 1 ==> failures == RoleIssues(Selected(rows, Baseline), stage, Baseline, m.name, m.envelope)
      invariant k == 2 ==> failures == RoleIssues(Selected(rows, Baseline), stage, Baseline, m.name, m.envelope)
                             + RoleIssues(Selected(rows, OtherRole(stage)), stage, OtherRole(stage), m.name, m.envelope)
    {
      failures := failures + RoleIssues(Selected(rows, roles[k]), stage, roles[k], m.name, m.envelope);
    }
    failures := failures
                + MedianIssues(Selected(rows, Baseline), Selected(rows, OtherRole(stage)), stage, m.name, m.envelope, benefit);
  }

  // ----- calibration accepts itself -------------------------------------------------------------

  function Times(q: real, x: real): real {
    q * x
  }

  function Multiple(quantum: real, n: int): real {
    Times(quantum, n as real)
  }

  /** The scalar ceiling is the least multiple of the quantum at or above the largest value plus the allowance. */
  lemma ScalarCeilingIsLeast(values: seq<real>, quantum: real, resolution: real)
    requires ScalarEnvelope(values, quantum, resolution).Ok?
    ensures var e := ScalarEnvelope(values, quantum, resolution).value;
            var least := Largest(values) + e.allowance;
            && least <= e.ceiling
            && (exists k: int :: e.ceiling == Multiple(quantum, k))
            && (forall n: int | Multiple(quantum, n) >= least :: Multiple(quantum, n) >= e.ceiling)
  {
    hide Median, Kth, Ceiling;
    var least := Largest(values) + ScalarEnvelope(values, quantum, resolution).value.allowance;
    TimesDivided(quantum, least);
    RoundedUp(quantum, least, least / quantum);
  }

  lemma RoundedUp(quantum: real, least: real, ticks: real)
    requires quantum > 0.0 && Times(quantum, ticks) == least
    ensures Multiple(quantum, Ceiling(ticks)) >= least
    ensures forall n: int | Multiple(quantum, n) >= least :: Multiple(quantum, n) >= Multiple(quantum, Ceiling(ticks))
  {
    hide Times, Ceiling;
    var up := Ceiling(ticks);
    CeilingIsLeast(ticks, up);
    TimesMonotone(quantum, ticks, up as real);
    forall n: int | Multiple(quantum, n) >= least ensures Multiple(quantum, n) >= Multiple(quantum, up) {
      TimesCancels(quantum, n as real, ticks);
      CeilingIsLeast(ticks, n);
      TimesMonotone(quantum, up as real, n as real);
    }
  }

  lemma TimesDivided(q: real, x: real)
    requires q > 0.0
    ensures Times(q, x / q) == x
  {
  }

  lemma TimesMonotone(q: real, a: real, b: real)
    requires q > 0.0
    ensures a <= b ==> Times(q, a) <= Times(q, b)
  {
  }

  lemma TimesCancels(q: real, a: real, b: real)
    requires q > 0.0 && Times(q, a) >= Times(q, b)
    ensures a >= b
  {
    assert a < b ==> q * (b - a) > 0.0;
  }

  lemma CentralWithinSpread(v: seq<real>)
    requires |v| == 6
    ensures CentralFourSpread(v) <= Spread(v)
  {
    KthMonotone(v, 0, 1);
    KthMonotone(v, 4, 5);
  }

  /** A complete role whose spread is within the allowance cannot fail order or drift. */
  lemma SpreadBoundsOrderAndDrift(six: seq<Row>, start: nat, name: string, allowance: real)
    requires Alternating(six, start) && Observed(six, name) && Spread(Values(six, name)) <= allowance
    ensures !OrderFails(six, name, allowance) && !DriftFails(six, name, allowance)
  {
    hide Spread, CentralFourSpread, OrderFails, DriftFails;
    CentralWithinSpread(Values(six, name));
    OrderWithin(six, start, name, allowance);
    DriftWithin(six, start, name, allowance);
  }

  /** In a comparison the spread of a complete role alone decides its findings on a scalar metric. */
  lemma ComparisonRoleDecidedBySpread(six: seq<Row>, start: nat, role: Role, name: string, e: Envelope)
    requires Alternating(six, start) && Observed(six, name) && e.Scalar? && e.resolution > 0.0
    ensures RoleIssues(six, Comparison, role, name, e) == [] <==> Spread(Values(six, name)) <= e.allowance
  {
    hide Spread, OrderFails, DriftFails, Values;
    if Spread(Values(six, name)) <= e.allowance {
      SpreadBoundsOrderAndDrift(six, start, name, e.allowance);
    }
  }

  /** A resident role with its spread within the allowance keeps order and drift: only the noise bound is left. */
  lemma ResidentRoleDecidedByNoise(six: seq<Row>, start: nat, role: Role, name: string, e: Envelope)
    requires Alternating(six, start) && Observed(six, name) && e.Resident? && Spread(Values(six, name)) <= e.allowance
    ensures !OrderFails(six, name, e.allowance) && !DriftFails(six, name, e.allowance)
    ensures var v := Values(six, name);
            RoleIssues(six, Comparison, role, name, e) == [] <==> Spread(v) <= 0.15 * Median(v)
  {
    hide Spread, OrderFails, DriftFails, Values, Median;
    SpreadBoundsOrderAndDrift(six, start, name, e.allowance);
  }

  /** A derived envelope admits its own values: limits, noise and allowance. */
  lemma DerivedAdmits(contract: Contract, values: seq<real>)
    requires Derive(contract, values).Ok?
    ensures |values| == 6
    ensures var e := Derive(contract, values).value;
            && (forall v | v in values :: v <= e.ceiling)
            && (e.Scalar? ==> e.resolution > 0.0)
            && (!e.Trial? ==> Spread(values) <= e.allowance)
            && (!e.Trial? && (e.Scalar? ==> e.resolution > 0.0) ==> !Noisy(values, Control, e))
            && (e.Trial? ==> CentralFourSpread(values) <= e.tolerance)
  {
    hide Median, Ceiling, Kth;
    var e := Derive(contract, values).value;
    forall v | v in values ensures v <= e.ceiling {
      var i :| 0 <= i < |values| && values[i] == v;
      ValueBetween(values, i);
      if contract.ScalarContract? {
        ScalarCeilingIsLeast(values, contract.quantum, contract.resolution);
      }
    }
  }

  lemma AllowanceNonnegative(values: seq<real>)
    requires |values| == 6
    ensures Spread(values) >= 0.0 && CentralFourSpread(values) >= 0.0
  {
    KthMonotone(values, 0, 5);
    KthMonotone(values, 1, 4);
  }

  /** A complete control whose two roles repeat `values`. */
  ghost predicate Repeats(rows: seq<Row>, name: string, values: seq<real>) {
    Complete(rows, Control, name) && BaselineValues(rows, name) == values && OtherValues(rows, name) == values
  }

  lemma RepeatedTrialPasses(rows: seq<Row>, m: Metric, values: seq<real>, benefit: Option<string>)
    requires m.envelope.Trial? && |values| == 6 && CentralFourSpread(values) <= m.envelope.tolerance
    requires Repeats(rows, m.name, values)
    ensures MetricIssues(rows, Control, m, benefit) == []
  {
    hide CentralFourSpread, Median, Findings, Selected;
    AllowanceNonnegative(values);
    TrialGradingCollapses(rows, Control, m.name, m.envelope.tolerance);
  }

  lemma RepeatedRolesPass(rows: seq<Row>, m: Metric, values: seq<real>, benefit: Option<string>)
    requires !m.envelope.Trial? && MetricOk(m) && |values| == 6 && Spread(values) <= m.envelope.allowance
    requires !Noisy(values, Control, m.envelope) && Repeats(rows, m.name, values)
    ensures MetricIssues(rows, Control, m, benefit) == []
  {
    AllowanceNonnegative(values);
    hide Spread, CentralFourSpread, Noisy, Median, Selected, OrderFails, DriftFails, Complete, Values, Alternating;
    CompleteRoles(rows, Control, m.name);
    SixOfRole(rows, Control, m.name);
    SpreadBoundsOrderAndDrift(Selected(rows, Baseline), 0, m.name, m.envelope.allowance);
    SpreadBoundsOrderAndDrift(Selected(rows, Repeat), 1, m.name, m.envelope.allowance);
  }

  lemma RepeatedMetricPasses(rows: seq<Row>, m: Metric, contract: Contract, values: seq<real>, benefit: Option<string>)
    requires Derive(contract, values) == Ok(m.envelope) && Repeats(rows, m.name, values)
    ensures MetricOk(m) && MetricIssues(rows, Control, m, benefit) == []
  {
    hide Spread, CentralFourSpread, Derive, Noisy, MetricIssues, Repeats;
    DerivedAdmits(contract, values);
    if m.envelope.Trial? {
      RepeatedTrialPasses(rows, m, values, benefit);
    } else {
      RepeatedRolesPass(rows, m, values, benefit);
    }
  }

  lemma RowRepeats(rows: seq<Row>, name: string, values: seq<real>, i: nat)
    requires Repeats(rows, name, values) && i < 12
    ensures name in rows[i].metrics && rows[i].metrics[name] in values
  {
    var p := i / 2;
    assert rows[i] in rows;
    if i % 2 == p % 2 {
      assert BaselineValues(rows, name)[p] == rows[i].metrics[name];
    } else {
      assert OtherValues(rows, name)[p] == rows[i].metrics[name];
    }
  }

  lemma {:induction false} NoLimitIssues(row: Row, metrics: seq<Metric>)
    ensures LimitIssues(row, metrics) == [] <==> forall m | m in metrics :: LimitIssue(row, m) == []
  {
    hide LimitIssue;
    if metrics != [] {
      var front, last := metrics[..|metrics| - 1], metrics[|metrics| - 1];
      NoLimitIssues(row, front);
      assert forall m :: m in metrics <==> m in front || m == last;
    }
  }

  lemma {:induction false} NoLimitIssuesInAll(rows: seq<Row>, metrics: seq<Metric>)
    ensures AllLimitIssues(rows, metrics) == [] <==>
            forall row, m | row in rows && m in metrics :: LimitIssue(row, m) == []
  {
    hide LimitIssue, LimitIssues;
    if rows != [] {
      var front, last := rows[..|rows| - 1], rows[|rows| - 1];
      NoLimitIssuesInAll(front, metrics);
      NoLimitIssues(last, metrics);
      assert forall row :: row in rows <==> row in front || row == last;
    }
  }

  lemma {:induction false} NoMetricIssues(rows: seq<Row>, stage: Stage, metrics: seq<Metric>, benefit: Option<string>)
    requires forall m | m in metrics :: MetricOk(m)
    ensures AllMetricIssues(rows, stage, metrics, benefit) == [] <==>
            forall m | m in metrics :: MetricIssues(rows, stage, m, benefit) == []
  {
    hide MetricIssues, MetricOk;
    if metrics != [] {
      var front, last := metrics[..|metrics| - 1], metrics[|metrics| - 1];
      NoMetricIssues(rows, stage, front, benefit);
      assert forall m :: m in metrics <==> m in front || m == last;
    }
  }

  /**
   Calibration accepts itself: with every envelope derived from six calibration values, a complete control whose two
   roles repeat those values in the same order has no issue, in any metric.
   */
  lemma CalibrationAcceptsItself(rows: seq<Row>, metrics: seq<Metric>, contracts: seq<Contract>, samples: seq<seq<real>>,
                                 benefit: Option<string>)
    requires |metrics| == |contracts| == |samples| && OnSchedule(rows, Control)
    requires forall k | 0 <= k < |metrics| ::
               Derive(contracts[k], samples[k]) == Ok(metrics[k].envelope) && Repeats(rows, metrics[k].name, samples[k])
    ensures forall m | m in metrics :: MetricOk(m)
    ensures Grade(rows, Control, metrics, benefit) == []
  {
    hide Derive, Repeats, MetricIssues, LimitIssue, MetricOk;
    forall m | m in metrics ensures MetricOk(m) && MetricIssues(rows, Control, m, benefit) == [] {
      var k :| 0 <= k < |metrics| && metrics[k] == m;
      RepeatedMetricPasses(rows, m, contracts[k], samples[k], benefit);
    }
    NoMetricIssues(rows, Control, metrics, benefit);
    forall row, m | row in rows && m in metrics ensures LimitIssue(row, m) == [] {
      var k :| 0 <= k < |metrics| && metrics[k] == m;
      var i :| 0 <= i < |rows| && rows[i] == row;
      UnderCeiling(rows, i, m, contracts[k], samples[k]);
    }
    NoLimitIssuesInAll(rows, metrics);
  }

  lemma UnderCeiling(rows: seq<Row>, i: nat, m: Metric, contract: Contract, values: seq<real>)
    requires Derive(contract, values) == Ok(m.envelope) && Repeats(rows, m.name, values) && i < |rows|
    ensures LimitIssue(rows[i], m) == []
  {
    DerivedAdmits(contract, values);
    hide Derive, Spread, CentralFourSpread, Noisy;
    RowRepeats(rows, m.name, values, i);
  }
}
