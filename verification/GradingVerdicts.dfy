/** When a control and a comparison have no issue, as conditions on the observed values. */
module GradingVerdicts {
  import opened Wrappers
  import opened OrderStatistics
  import opened Stages
  import opened TrialGrading
  import opened MetricGrading

  /** Two numbers are apart by at most the allowance. */
  predicate Near(a: real, b: real, allowance: real) {
    -allowance <= a - b <= allowance
  }

  /** The medians of both positions and of both halves of a role are apart by at most the allowance. */
  predicate Even(v: seq<real>, allowance: real)
    requires |v| == 6
  {
    && Near(Median([v[0], v[2], v[4]]), Median([v[1], v[3], v[5]]), allowance)
    && Near(Median([v[0], v[1], v[2]]), Median([v[3], v[4], v[5]]), allowance)
  }

  /** The spread is within 15% of the median; a scalar median counts for at least twice the resolution. */
  predicate Steady(v: seq<real>, e: Envelope)
    requires |v| == 6 && !e.Trial?
  {
    var twice := if e.Scalar? then 2.0 * e.resolution else 0.0;
    Spread(v) <= 0.15 * (if e.Scalar? && Median(v) < twice then twice else Median(v))
  }

  // ----- one role -------------------------------------------------------------------------------

  lemma OrderIs(six: seq<Row>, start: nat, name: string, allowance: real)
    requires Alternating(six, start) && Observed(six, name)
    ensures var v := Values(six, name);
            !OrderFails(six, name, allowance) <==> Near(Median([v[0], v[2], v[4]]), Median([v[1], v[3], v[5]]), allowance)
  {
    InPositionPairs(six, start, 0);
    InPositionPairs(six, start, 1);
    ValuesParity(six, name);
    hide Median, InPosition, Values, Observed, Alternating;
  }

  lemma DriftIs(six: seq<Row>, start: nat, name: string, allowance: real)
    requires Alternating(six, start) && Observed(six, name)
    ensures var v := Values(six, name);
            !DriftFails(six, name, allowance) <==> Near(Median([v[0], v[1], v[2]]), Median([v[3], v[4], v[5]]), allowance)
  {
    assert |six| == 6;
    hide Median, Values, Alternating, Observed, DriftFails;
    ValuesHalves(six, name);
    HalvesOfSix(Values(six, name));
    InOrder(six, start, name, allowance);
  }

  /** The rows of a role are in the order of their processes. */
  lemma InOrder(six: seq<Row>, start: nat, name: string, allowance: real)
    requires Alternating(six, start) && Observed(six, name) && Observed(six[..3], name) && Observed(six[3..], name)
    ensures DriftFails(six, name, allowance) <==> Apart(six[..3], six[3..], name, allowance)
  {
    ByProcessKeeps(six);
    hide ByProcess, Apart, Alternating, Observed;
  }

  lemma HalvesOfSix(v: seq<real>)
    requires |v| == 6
    ensures v[..3] == [v[0], v[1], v[2]] && v[3..] == [v[3], v[4], v[5]]
  {
  }

  lemma Ratio(x: real, y: real)
    requires y > 0.0
    ensures x / y > 0.15 <==> x > 0.15 * y
  {
    if x / y > 0.15 {
      assert x / y * y > 0.15 * y;
    } else {
      assert x / y * y <= 0.15 * y;
    }
  }

  lemma NoiseIs(v: seq<real>, e: Envelope)
    requires |v| == 6 && !e.Trial? && (e.Scalar? ==> e.resolution > 0.0)
    ensures !Noisy(v, Control, e) <==> Steady(v, e)
    ensures e.Resident? ==> (!Noisy(v, Comparison, e) <==> Steady(v, e))
    ensures e.Scalar? ==> (!Noisy(v, Comparison, e) <==> Spread(v) <= e.allowance)
  {
    hide Spread, Median;
    if e.Scalar? {
      Ratio(Spread(v), Max(Median(v), 2.0 * e.resolution));
    }
  }

  /** The role of a control has no issue exactly when it is steady and even. */
  lemma ControlRoleIff(six: seq<Row>, start: nat, role: Role, name: string, e: Envelope)
    requires Alternating(six, start) && Observed(six, name) && !e.Trial? && (e.Scalar? ==> e.resolution > 0.0)
    ensures RoleIssues(six, Control, role, name, e) == [] <==>
            Steady(Values(six, name), e) && Even(Values(six, name), e.allowance)
  {
    OrderIs(six, start, name, e.allowance);
    DriftIs(six, start, name, e.allowance);
    NoiseIs(Values(six, name), e);
    hide Noisy, OrderFails, DriftFails, Steady, Near, Values, Median;
  }

  /** The role of a comparison: its spread alone on a scalar metric, steady and even on a resident one. */
  lemma ComparedRoleIff(six: seq<Row>, start: nat, role: Role, name: string, e: Envelope)
    requires Alternating(six, start) && Observed(six, name) && !e.Trial? && (e.Scalar? ==> e.resolution > 0.0)
    ensures RoleIssues(six, Comparison, role, name, e) == [] <==>
            var v := Values(six, name);
            if e.Scalar? then Spread(v) <= e.allowance else Steady(v, e) && Even(v, e.allowance)
  {
    if e.Scalar? {
      ComparisonRoleDecidedBySpread(six, start, role, name, e);
    } else {
      OrderIs(six, start, name, e.allowance);
      DriftIs(six, start, name, e.allowance);
      NoiseIs(Values(six, name), e);
    }
    hide Noisy, OrderFails, DriftFails, Steady, Near, Values, Median, Spread;
  }

  // ----- one metric -----------------------------------------------------------------------------

  /** The six values of each role, by pair: the roles swap places from pair to pair. */
  function Column(rows: seq<Row>, name: string, role: Role): (v: seq<real>)
    requires |rows| == 12 && Observed(rows, name)
    ensures |v| == 6
  {
    if role.Baseline?
    then [rows[0].metrics[name], rows[3].metrics[name], rows[4].metrics[name],
          rows[7].metrics[name], rows[8].metrics[name], rows[11].metrics[name]]
    else [rows[1].metrics[name], rows[2].metrics[name], rows[5].metrics[name],
          rows[6].metrics[name], rows[9].metrics[name], rows[10].metrics[name]]
  }

  lemma ColumnsAre(rows: seq<Row>, stage: Stage, name: string)
    requires Complete(rows, stage, name)
    ensures Observed(rows, name) && BaselineValues(rows, name) == Column(rows, name, Baseline)
    ensures OtherValues(rows, name) == Column(rows, name, OtherRole(stage))
  {
    hide PairedSlot;
  }

  /** What a control has to show for a metric. */
  ghost predicate ControlAccepted(rows: seq<Row>, m: Metric)
    requires |rows| == 12 && Observed(rows, m.name)
  {
    var b, o, e := Column(rows, m.name, Baseline), Column(rows, m.name, Repeat), m.envelope;
    && (forall row | row in rows :: row.metrics[m.name] <= e.ceiling)
    && if e.Trial? then
         && CentralFourSpread(b) <= e.tolerance && CentralFourSpread(o) <= e.tolerance
         && (forall i | 0 <= i < 6 :: Near(o[i], b[i], e.tolerance))
       else
         && Steady(b, e) && Steady(o, e) && Even(b, e.allowance) && Even(o, e.allowance)
         && Near(Median(b), Median(o), e.allowance)
  }

  /** What a comparison has to show for a metric. */
  ghost predicate ComparisonAccepted(rows: seq<Row>, m: Metric, benefit: Option<string>)
    requires |rows| == 12 && Observed(rows, m.name)
  {
    var b, o, e := Column(rows, m.name, Baseline), Column(rows, m.name, Candidate), m.envelope;
    && (forall row | row in rows :: row.metrics[m.name] <= e.ceiling)
    && match e
       case Trial(_, tolerance) =>
         && CentralFourSpread(b) <= tolerance && CentralFourSpread(o) <= tolerance
         && (forall i | 0 <= i < 6 :: o[i] - b[i] <= tolerance)
       case Scalar(_, allowance, _) =>
         && Spread(b) <= allowance && Spread(o) <= allowance
         && (Some(m.name) == benefit ==> Median(b) - Median(o) > allowance)
       case Resident(_, allowance) =>
         && Steady(b, e) && Steady(o, e) && Even(b, allowance) && Even(o, allowance)
         && Median(o) - Median(b) <= allowance
         && (Some(m.name) == benefit ==> Median(b) - Median(o) > allowance)
  }

  predicate UnderAll(rows: seq<Row>, m: Metric)
    requires Observed(rows, m.name)
  {
    forall row | row in rows :: row.metrics[m.name] <= m.envelope.ceiling
  }

  lemma PairsAre(b: seq<real>, o: seq<real>, tolerance: real)
    requires |b| == |o| == 6
    ensures PairsWithin(Control, b, o, tolerance) <==> forall i | 0 <= i < 6 :: Near(o[i], b[i], tolerance)
    ensures PairsWithin(Comparison, b, o, tolerance) <==> forall i | 0 <= i < 6 :: o[i] - b[i] <= tolerance
  {
    assert forall i | 0 <= i < 6 :: PairFails(Control, o[i] - b[i], tolerance) <==> !Near(o[i], b[i], tolerance);
    assert forall i | 0 <= i < 6 :: PairFails(Comparison, o[i] - b[i], tolerance) <==> !(o[i] - b[i] <= tolerance);
  }

  lemma MediansAre(base: seq<Row>, other: seq<Row>, name: string, e: Envelope, benefit: Option<string>)
    requires |base| == |other| == 6 && Observed(base, name) && Observed(other, name) && !e.Trial?
    ensures var b, o := Median(Values(base, name)), Median(Values(other, name));
            && (MedianIssues(base, other, Control, name, e, benefit) == [] <==> Near(b, o, e.allowance))
            && (MedianIssues(base, other, Comparison, name, e, benefit) == [] <==>
                  (Some(name) == benefit ==> b - o > e.allowance) && (e.Resident? ==> o - b <= e.allowance))
  {
    hide Median, Values, Observed;
  }

  lemma ControlMetricIff(rows: seq<Row>, m: Metric, benefit: Option<string>)
    requires Complete(rows, Control, m.name) && MetricOk(m) && UnderAll(rows, m)
    ensures MetricIssues(rows, Control, m, benefit) == [] <==> ControlAccepted(rows, m)
  {
    hide Steady, Even, CentralFourSpread, Median, Selected, Findings, RoleIssues, Alternating, PairedSlot, MedianIssues, Near,
         Column, Values, PairsWithin;
    ColumnsAre(rows, Control, m.name);
    var b, o := BaselineValues(rows, m.name), OtherValues(rows, m.name);
    if m.envelope.Trial? {
      TrialGradingCollapses(rows, Control, m.name, m.envelope.tolerance);
      PairsAre(b, o, m.envelope.tolerance);
    } else {
      CompleteRoles(rows, Control, m.name);
      SixOfRole(rows, Control, m.name);
      var base, other := Selected(rows, Baseline), Selected(rows, Repeat);
      ControlRoleIff(base, 0, Baseline, m.name, m.envelope);
      ControlRoleIff(other, 1, Repeat, m.name, m.envelope);
      MediansAre(base, other, m.name, m.envelope, benefit);
    }
  }

  lemma ComparisonMetricIff(rows: seq<Row>, m: Metric, benefit: Option<string>)
    requires Complete(rows, Comparison, m.name) && MetricOk(m) && UnderAll(rows, m)
    ensures MetricIssues(rows, Comparison, m, benefit) == [] <==> ComparisonAccepted(rows, m, benefit)
  {
    hide Steady, Even, CentralFourSpread, Median, Selected, Findings, RoleIssues, Alternating, PairedSlot, MedianIssues,
         Column, Values, PairsWithin, Spread;
    ColumnsAre(rows, Comparison, m.name);
    var b, o := BaselineValues(rows, m.name), OtherValues(rows, m.name);
    if m.envelope.Trial? {
      TrialGradingCollapses(rows, Comparison, m.name, m.envelope.tolerance);
      PairsAre(b, o, m.envelope.tolerance);
    } else {
      CompleteRoles(rows, Comparison, m.name);
      SixOfRole(rows, Comparison, m.name);
      var base, other := Selected(rows, Baseline), Selected(rows, Candidate);
      ComparedRoleIff(base, 0, Baseline, m.name, m.envelope);
      ComparedRoleIff(other, 1, Candidate, m.name, m.envelope);
      MediansAre(base, other, m.name, m.envelope, benefit);
    }
  }

  // ----- the whole phase ------------------------------------------------------------------------

  lemma LimitsIff(rows: seq<Row>, metrics: seq<Metric>)
    ensures AllLimitIssues(rows, metrics) == [] <==> forall m | m in metrics :: Observed(rows, m.name) && UnderAll(rows, m)
  {
    NoLimitIssuesInAll(rows, metrics);
    hide AllLimitIssues;
    if forall m | m in metrics :: Observed(rows, m.name) && UnderAll(rows, m) {
      forall row, m | row in rows && m in metrics ensures LimitIssue(row, m) == [] {
        assert Observed(rows, m.name) && UnderAll(rows, m);
      }
    } else {
      var m :| m in metrics && !(Observed(rows, m.name) && UnderAll(rows, m));
      var row :| row in rows && (m.name !in row.metrics || row.metrics[m.name] > m.envelope.ceiling);
      assert LimitIssue(row, m) != [];
    }
  }

  /**
   A control has no issue if and only if it is complete on its schedule and, for every metric, no value is missing or above
   the ceiling, and: on a trial metric both central-four spreads and every pair are within the tolerance; on any other
   metric both roles are steady and even and their medians are apart by at most the allowance.
   */
  lemma ControlAcceptedIff(rows: seq<Row>, metrics: seq<Metric>, benefit: Option<string>)
    requires forall m | m in metrics :: MetricOk(m)
    ensures Grade(rows, Control, metrics, benefit) == [] <==>
            OnSchedule(rows, Control)
            && forall m | m in metrics :: Observed(rows, m.name) && ControlAccepted(rows, m)
  {
    hide MetricIssues, AllLimitIssues, AllMetricIssues, MetricOk, Observed, SlotAt;
    LimitsIff(rows, metrics);
    NoMetricIssues(rows, Control, metrics, benefit);
    if OnSchedule(rows, Control) {
      forall m | m in metrics && Observed(rows, m.name) && UnderAll(rows, m)
        ensures MetricIssues(rows, Control, m, benefit) == [] <==> ControlAccepted(rows, m)
      {
        OnScheduleIsComplete(rows, Control, m.name);
        ControlMetricIff(rows, m, benefit);
      }
      assert forall m | m in metrics && Observed(rows, m.name) && ControlAccepted(rows, m) :: UnderAll(rows, m);
    }
  }

  /**
   A comparison has no issue if and only if it is complete on its schedule and, for every metric, no value is missing or
   above the ceiling, and: on a trial metric both central-four spreads and every pair are within the tolerance; on a scalar
   metric both spreads are within the allowance; on a resident metric both roles are steady and even, and the median does
   not rise by more than the allowance; the declared metric improves by more than its allowance.
   */
  lemma ComparisonAcceptedIff(rows: seq<Row>, metrics: seq<Metric>, benefit: Option<string>)
    requires forall m | m in metrics :: MetricOk(m)
    ensures Grade(rows, Comparison, metrics, benefit) == [] <==>
            OnSchedule(rows, Comparison)
            && forall m | m in metrics :: Observed(rows, m.name) && ComparisonAccepted(rows, m, benefit)
  {
    hide MetricIssues, AllLimitIssues, AllMetricIssues, MetricOk, Observed, SlotAt;
    LimitsIff(rows, metrics);
    NoMetricIssues(rows, Comparison, metrics, benefit);
    if OnSchedule(rows, Comparison) {
      forall m | m in metrics && Observed(rows, m.name) && UnderAll(rows, m)
        ensures MetricIssues(rows, Comparison, m, benefit) == [] <==> ComparisonAccepted(rows, m, benefit)
      {
        OnScheduleIsComplete(rows, Comparison, m.name);
        ComparisonMetricIff(rows, m, benefit);
      }
      assert forall m | m in metrics && Observed(rows, m.name) && ComparisonAccepted(rows, m, benefit) :: UnderAll(rows, m);
    }
  }

  lemma OnScheduleIsComplete(rows: seq<Row>, stage: Stage, name: string)
    requires OnSchedule(rows, stage) && (stage.Control? || stage.Comparison?) && Observed(rows, name)
    ensures Complete(rows, stage, name)
  {
  }

  /** A smoke and a calibration are graded by their schedule and their limits alone. */
  lemma OtherStagesAcceptedIff(rows: seq<Row>, stage: Stage, metrics: seq<Metric>, benefit: Option<string>)
    requires (stage.Smoke? || stage.Calibration?) && forall m | m in metrics :: MetricOk(m)
    ensures Grade(rows, stage, metrics, benefit) == [] <==>
            OnSchedule(rows, stage) && forall m | m in metrics :: Observed(rows, m.name) && UnderAll(rows, m)
  {
    LimitsIff(rows, metrics);
    hide AllLimitIssues, OnSchedule, Observed;
  }

  // ----- spreads and envelopes ------------------------------------------------------------------

  /** Spreads, read off any ascending arrangement of the values. */
  lemma RankedSpreads(v: seq<real>, ranked: seq<real>)
    requires Ascending(ranked) && multiset(ranked) == multiset(v) && v != []
    ensures |ranked| == |v| && Spread(v) == ranked[|v| - 1] - ranked[0]
    ensures |v| == 6 ==> CentralFourSpread(v) == ranked[4] - ranked[1]
  {
    RankedValues(v, ranked);
  }

  /** A derived scalar envelope: steady calibration values, and as allowance their spread or twice the resolution. */
  lemma ScalarEnvelopeIs(values: seq<real>, quantum: real, resolution: real)
    requires ScalarEnvelope(values, quantum, resolution).Ok?
    ensures var e := ScalarEnvelope(values, quantum, resolution).value;
            && e.Scalar? && |values| == 6 && e.resolution == resolution > 0.0 && Steady(values, e)
            && e.allowance >= Spread(values) && e.allowance >= 2.0 * resolution
            && (e.allowance == Spread(values) || e.allowance == 2.0 * resolution)
  {
    hide Spread, Median, Ceiling;
    Ratio(Spread(values), Max(Median(values), 2.0 * resolution));
  }

  /** A derived resident envelope: the declared ceiling, and as allowance the spread or the declared floor. */
  lemma ResidentEnvelopeIs(values: seq<real>, hardCeiling: real, floor: real)
    requires ResidentEnvelope(values, hardCeiling, floor).Ok?
    ensures var e := ResidentEnvelope(values, hardCeiling, floor).value;
            && e.Resident? && |values| == 6 && e.ceiling == hardCeiling && Steady(values, e)
            && (forall v | v in values :: 0.0 < v <= hardCeiling)
            && e.allowance >= Spread(values) && e.allowance >= floor
            && (e.allowance == Spread(values) || e.allowance == floor)
  {
    hide Spread, Median;
  }

  /** Which calibrations give an envelope. */
  lemma DerivedIff(contract: Contract, values: seq<real>)
    ensures Derive(contract, values).Ok? <==>
            && |values| == 6
            && match contract
               case ScalarContract(quantum, resolution) =>
                 && quantum > 0.0 && resolution > 0.0 && (forall v | v in values :: v >= 0.0)
                 && Steady(values, Scalar(0.0, 0.0, resolution))
               case ResidentContract(hardCeiling, floor) =>
                 (forall v | v in values :: 0.0 < v <= hardCeiling) && Steady(values, Resident(hardCeiling, floor))
               case TrialContract(hardCeiling, tolerance) =>
                 (forall v | v in values :: 0.0 <= v <= hardCeiling) && CentralFourSpread(values) <= tolerance
  {
    hide Spread, Median, Ceiling, CentralFourSpread, Kth;
    if |values| == 6 {
      match contract
      case ScalarContract(quantum, resolution) =>
        if resolution > 0.0 {
          Ratio(Spread(values), Max(Median(values), 2.0 * resolution));
        }
      case ResidentContract(_, _) =>
      case TrialContract(hardCeiling, _) =>
        LargestBounds(values, hardCeiling);
    }
  }

  lemma LargestBounds(values: seq<real>, bound: real)
    requires values != []
    ensures Largest(values) <= bound <==> forall v | v in values :: v <= bound
  {
    hide Kth;
    KthIsValue(values, |values| - 1);
    forall v | v in values ensures v <= Largest(values) {
      var i :| 0 <= i < |values| && values[i] == v;
      ValueBetween(values, i);
    }
  }
}
