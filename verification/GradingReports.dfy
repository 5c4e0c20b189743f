/** Which issues and findings grading reports, one by one, for any rows. */
module GradingReports {
  import opened Wrappers
  import opened OrderStatistics
  import opened Stages
  import opened TrialGrading
  import opened MetricGrading

  predicate Graded(stage: Stage) {
    stage.Control? || stage.Comparison?
  }

  predicate IsRole(stage: Stage, role: Role) {
    role == Baseline || role == if stage.Control? then Repeat else Candidate
  }

  /** The role has six attempts with a value each. */
  predicate HasSix(rows: seq<Row>, role: Role, name: string) {
    |Selected(rows, role)| == 6 && Observed(Selected(rows, role), name)
  }

  function SixValues(rows: seq<Row>, role: Role, name: string): (v: seq<real>)
    requires HasSix(rows, role, name)
    ensures |v| == 6
  {
    Values(Selected(rows, role), name)
  }

  /** The rows of a role, in order. */
  lemma {:induction false} SelectedAre(rows: seq<Row>, role: Role)
    ensures forall row :: row in Selected(rows, role) <==> row in rows && row.slot.role == role
    ensures multiset(Selected(rows, role)) <= multiset(rows)
  {
    if rows != [] {
      SelectedAre(rows[1..], role);
      assert rows == [rows[0]] + rows[1..];
    }
  }

  // ----- findings of a trial metric -------------------------------------------------------------

  /** The role has a value in the pair. */
  predicate Gives(row: Row, role: Role, name: string, pair: nat): (b: bool)
    ensures b ==> name in row.metrics
  {
    row.slot.role == role && row.slot.pair == pair && name in row.metrics
  }

  /** The last value that the role has in a pair. */
  ghost predicate InPair(rows: seq<Row>, role: Role, name: string, pair: nat, value: real) {
    exists i | 0 <= i < |rows| ::
      && Gives(rows[i], role, name, pair) && rows[i].metrics[name] == value
      && forall j | i < j < |rows| :: !Gives(rows[j], role, name, pair)
  }

  lemma {:induction false} PairValuesAre(rows: seq<Row>, role: Role, name: string, pair: nat)
    ensures var found := PairValues(Selected(rows, role), name);
            forall value :: pair in found && found[pair] == value <==> InPair(rows, role, name, pair, value)
  {
    if rows == [] {
      assert Selected(rows, role) == [];
    } else {
      var front, last := rows[..|rows| - 1], rows[|rows| - 1];
      PairValuesAre(front, role, name, pair);
      assert rows == front + [last];
      SelectedConcat(front, [last], role);
      SelectedOne(last, role);
      PairValuesLast(Selected(front, role), last, name);
      assert Selected(front, role) + [] == Selected(front, role);
      forall value
        ensures InPair(rows, role, name, pair, value) <==>
                if Gives(last, role, name, pair) then last.metrics[name] == value
                else InPair(front, role, name, pair, value)
      {
        InPairLast(rows, role, name, pair, value);
      }
    }
  }

  lemma SelectedOne(row: Row, role: Role)
    ensures Selected([row], role) == if row.slot.role == role then [row] else []
  {
    assert [row][1..] == [];
  }

  lemma PairValuesLast(rows: seq<Row>, last: Row, name: string)
    ensures PairValues(rows + [last], name) ==
            if name in last.metrics then PairValues(rows, name)[last.slot.pair := last.metrics[name]] else PairValues(rows, name)
  {
    assert (rows + [last])[..|rows|] == rows;
  }

  lemma InPairLast(rows: seq<Row>, role: Role, name: string, pair: nat, value: real)
    requires rows != []
    ensures var last := rows[|rows| - 1];
            InPair(rows, role, name, pair, value) <==>
            if Gives(last, role, name, pair) then last.metrics[name] == value
            else InPair(rows[..|rows| - 1], role, name, pair, value)
  {
    hide Gives;
    var front, last := rows[..|rows| - 1], rows[|rows| - 1];
    assert forall i | 0 <= i < |front| :: front[i] == rows[i];
    if !Gives(last, role, name, pair) && InPair(front, role, name, pair, value) {
      var i :| 0 <= i < |front| && Gives(front[i], role, name, pair) && front[i].metrics[name] == value
               && forall j | i < j < |front| :: !Gives(front[j], role, name, pair);
      assert rows[i] == front[i];
    }
  }

  lemma {:induction false} PairFindingsAre(stage: Stage, base: map<nat, real>, other: map<nat, real>, pairs: nat,
                                           tolerance: real, f: Finding)
    ensures f in PairFindings(stage, base, other, pairs, tolerance) <==>
            && f.PairDifference? && f.pair < pairs && f.pair in base && f.pair in other
            && PairFails(stage, other[f.pair] - base[f.pair], tolerance)
  {
    hide PairFails;
    if pairs > 0 {
      PairFindingsAre(stage, base, other, pairs - 1, tolerance, f);
    }
  }

  /**
   Which findings a trial metric has: per role its spread, order and drift, per pair its difference, and the difference of
   the role medians. A difference fails in both directions in a control, and only upwards in a comparison.
   */
  ghost predicate Finds(rows: seq<Row>, stage: Stage, name: string, tolerance: real, f: Finding) {
    match f
    case CentralSpread(role) =>
      IsRole(stage, role) && HasSix(rows, role, name) && CentralFourSpread(SixValues(rows, role, name)) > tolerance
    case Order(role) =>
      IsRole(stage, role) && HasSix(rows, role, name) && OrderFails(Selected(rows, role), name, tolerance)
    case Drift(role) =>
      IsRole(stage, role) && HasSix(rows, role, name) && DriftFails(Selected(rows, role), name, tolerance)
    case PairDifference(pair) =>
      pair < 6 && exists b, o :: InPair(rows, Baseline, name, pair, b) && InPair(rows, OtherRole(stage), name, pair, o)
                                 && TooFar(stage, o - b, tolerance)
    case RoleMedian =>
      && HasSix(rows, Baseline, name) && HasSix(rows, OtherRole(stage), name)
      && TooFar(stage, Median(SixValues(rows, OtherRole(stage), name)) - Median(SixValues(rows, Baseline, name)), tolerance)
  }

  predicate TooFar(stage: Stage, difference: real, tolerance: real) {
    difference > tolerance || (stage.Control? && -difference > tolerance)
  }

  lemma TooFarIs(stage: Stage, difference: real, tolerance: real)
    ensures PairFails(stage, difference, tolerance) <==> TooFar(stage, difference, tolerance)
  {
  }

  lemma RoleFindingsAre(rows: seq<Row>, role: Role, name: string, tolerance: real, f: Finding)
    ensures f in RoleFindings(rows, role, name, tolerance) <==>
            && HasSix(rows, role, name)
            && ((f == CentralSpread(role) && CentralFourSpread(SixValues(rows, role, name)) > tolerance)
                || (f == Order(role) && OrderFails(Selected(rows, role), name, tolerance))
                || (f == Drift(role) && DriftFails(Selected(rows, role), name, tolerance)))
  {
    hide CentralFourSpread, OrderFails, DriftFails, Selected, Values, Observed;
  }

  lemma RoleMediansAre(rows: seq<Row>, stage: Stage, name: string, tolerance: real, f: Finding)
    ensures f in RoleMedians(rows, stage, name, tolerance) <==>
            && f == RoleMedian && HasSix(rows, Baseline, name) && HasSix(rows, OtherRole(stage), name)
            && TooFar(stage, Median(SixValues(rows, OtherRole(stage), name)) - Median(SixValues(rows, Baseline, name)), tolerance)
  {
    if HasSix(rows, Baseline, name) && HasSix(rows, OtherRole(stage), name) {
      TooFarIs(stage, Median(SixValues(rows, OtherRole(stage), name)) - Median(SixValues(rows, Baseline, name)), tolerance);
    }
    hide Median, Selected, Values, Observed, PairFails, TooFar;
  }

  /** The findings are exactly those of both roles, of the pairs, and of the role medians. */
  lemma FindingsExactly(rows: seq<Row>, stage: Stage, name: string, tolerance: real, f: Finding)
    requires Graded(stage)
    ensures f in Findings(rows, stage, name, tolerance) <==> Finds(rows, stage, name, tolerance, f)
  {
    hide CentralFourSpread, OrderFails, DriftFails, Selected, PairFindings, PairFails, TooFar, InPair, Median, Values, PairValues,
         RoleFindings, RoleMedians, HasSix;
    var b, o := PairValues(Selected(rows, Baseline), name), PairValues(Selected(rows, OtherRole(stage)), name);
    PairFindingsAre(stage, b, o, 6, tolerance, f);
    RoleFindingsAre(rows, Baseline, name, tolerance, f);
    RoleFindingsAre(rows, OtherRole(stage), name, tolerance, f);
    RoleMediansAre(rows, stage, name, tolerance, f);
    if f.PairDifference? {
      PairIs(rows, stage, name, tolerance, f.pair);
    }
  }

  lemma PairIs(rows: seq<Row>, stage: Stage, name: string, tolerance: real, pair: nat)
    ensures var b, o := PairValues(Selected(rows, Baseline), name), PairValues(Selected(rows, OtherRole(stage)), name);
            pair in b && pair in o && PairFails(stage, o[pair] - b[pair], tolerance) <==>
            exists x, y :: InPair(rows, Baseline, name, pair, x) && InPair(rows, OtherRole(stage), name, pair, y)
                           && TooFar(stage, y - x, tolerance)
  {
    hide PairFails, TooFar, InPair, Selected, PairValues;
    PairValuesAre(rows, Baseline, name, pair);
    PairValuesAre(rows, OtherRole(stage), name, pair);
    var b, o := PairValues(Selected(rows, Baseline), name), PairValues(Selected(rows, OtherRole(stage)), name);
    if pair in b && pair in o {
      assert InPair(rows, Baseline, name, pair, b[pair]) && InPair(rows, OtherRole(stage), name, pair, o[pair]);
      TooFarIs(stage, o[pair] - b[pair], tolerance);
    }
  }

  // ----- issues of a phase ----------------------------------------------------------------------

  /** The metric is not a trial metric, and named so. */
  predicate Plain(m: Metric, name: string) {
    m.name == name && !m.envelope.Trial?
  }

  function Gain(rows: seq<Row>, name: string): real
    requires HasSix(rows, Baseline, name) && HasSix(rows, Candidate, name)
  {
    Median(SixValues(rows, Baseline, name)) - Median(SixValues(rows, Candidate, name))
  }

  /** The distance of two role medians. */
  function Gap(rows: seq<Row>, name: string, other: Role): real
    requires HasSix(rows, Baseline, name) && HasSix(rows, other, name)
  {
    var d := Median(SixValues(rows, Baseline, name)) - Median(SixValues(rows, other, name));
    if d < 0.0 then -d else d
  }

  lemma {:induction false} LimitsAre(row: Row, metrics: seq<Metric>, issue: Issue)
    ensures issue in LimitIssues(row, metrics) <==> exists m :: m in metrics && issue in LimitIssue(row, m)
  {
    hide LimitIssue;
    if metrics != [] {
      var front, last := metrics[..|metrics| - 1], metrics[|metrics| - 1];
      LimitsAre(row, front, issue);
      assert forall m :: m in metrics <==> m in front || m == last;
    }
  }

  lemma {:induction false} AllLimitsAre(rows: seq<Row>, metrics: seq<Metric>, issue: Issue)
    ensures issue in AllLimitIssues(rows, metrics) <==>
            exists row, m :: row in rows && m in metrics && issue in LimitIssue(row, m)
  {
    hide LimitIssue, LimitIssues;
    if rows != [] {
      var front, last := rows[..|rows| - 1], rows[|rows| - 1];
      AllLimitsAre(front, metrics, issue);
      LimitsAre(last, metrics, issue);
      assert forall row :: row in rows <==> row in front || row == last;
    }
  }

  lemma {:induction false} AllMetricsAre(rows: seq<Row>, stage: Stage, metrics: seq<Metric>, benefit: Option<string>, issue: Issue)
    requires forall m | m in metrics :: MetricOk(m)
    ensures issue in AllMetricIssues(rows, stage, metrics, benefit) <==>
            exists m :: m in metrics && issue in MetricIssues(rows, stage, m, benefit)
  {
    hide MetricIssues, MetricOk;
    if metrics != [] {
      var front, last := metrics[..|metrics| - 1], metrics[|metrics| - 1];
      AllMetricsAre(rows, stage, front, benefit, issue);
      assert forall m :: m in metrics <==> m in front || m == last;
    }
  }

  /** The issues of one metric. */
  ghost predicate MetricHas(rows: seq<Row>, stage: Stage, m: Metric, benefit: Option<string>, issue: Issue)
    requires MetricOk(m)
  {
    match issue
    case TrialIssue(name, finding) =>
      name == m.name && m.envelope.Trial? && finding in Findings(rows, stage, name, m.envelope.tolerance)
    case Noise(role, name) =>
      Plain(m, name) && IsRole(stage, role) && HasSix(rows, role, name)
      && Noisy(SixValues(rows, role, name), stage, m.envelope)
    case OrderOf(role, name) =>
      Plain(m, name) && IsRole(stage, role) && HasSix(rows, role, name)
      && OrderFails(Selected(rows, role), name, m.envelope.allowance)
    case DriftOf(role, name) =>
      Plain(m, name) && IsRole(stage, role) && HasSix(rows, role, name)
      && DriftFails(Selected(rows, role), name, m.envelope.allowance)
    case Bias(name) =>
      Plain(m, name) && stage.Control? && HasSix(rows, Baseline, name) && HasSix(rows, Repeat, name)
      && Gap(rows, name, Repeat) > m.envelope.allowance
    case NoBenefit(name) =>
      Plain(m, name) && stage.Comparison? && HasSix(rows, Baseline, name) && HasSix(rows, Candidate, name)
      && benefit == Some(name) && Gain(rows, name) <= m.envelope.allowance
    case ResidentRegression(name) =>
      Plain(m, name) && stage.Comparison? && HasSix(rows, Baseline, name) && HasSix(rows, Candidate, name)
      && m.envelope.Resident? && -Gain(rows, name) > m.envelope.allowance
    case _ => false
  }

  lemma TrialIssuesAre(name: string, findings: seq<Finding>, issue: Issue)
    ensures issue in TrialIssues(name, findings) <==> issue.TrialIssue? && issue.name == name && issue.finding in findings
  {
    var issues := TrialIssues(name, findings);
    if issue.TrialIssue? && issue.name == name && issue.finding in findings {
      var i :| 0 <= i < |findings| && findings[i] == issue.finding;
      assert issues[i] == issue;
    }
  }

  lemma RoleIssuesAre(rows: seq<Row>, stage: Stage, role: Role, m: Metric, issue: Issue)
    requires MetricOk(m) && !m.envelope.Trial?
    ensures issue in RoleIssues(Selected(rows, role), stage, role, m.name, m.envelope) <==>
            && HasSix(rows, role, m.name)
            && ((issue == Noise(role, m.name) && Noisy(SixValues(rows, role, m.name), stage, m.envelope))
                || (issue == OrderOf(role, m.name) && OrderFails(Selected(rows, role), m.name, m.envelope.allowance))
                || (issue == DriftOf(role, m.name) && DriftFails(Selected(rows, role), m.name, m.envelope.allowance)))
  {
    hide Noisy, OrderFails, DriftFails, Selected, Values, Observed;
  }

  lemma MedianIssuesAre(rows: seq<Row>, stage: Stage, m: Metric, benefit: Option<string>, issue: Issue)
    requires MetricOk(m) && !m.envelope.Trial? && Graded(stage)
    ensures var other := OtherRole(stage);
            issue in MedianIssues(Selected(rows, Baseline), Selected(rows, other), stage, m.name, m.envelope, benefit) <==>
            && HasSix(rows, Baseline, m.name) && HasSix(rows, other, m.name)
            && ((issue == Bias(m.name) && stage.Control? && Gap(rows, m.name, other) > m.envelope.allowance)
                || (issue == NoBenefit(m.name) && stage.Comparison? && benefit == Some(m.name)
                    && Gain(rows, m.name) <= m.envelope.allowance)
                || (issue == ResidentRegression(m.name) && stage.Comparison? && m.envelope.Resident?
                    && -Gain(rows, m.name) > m.envelope.allowance))
  {
    hide Median, Selected, Values, Observed;
  }

  lemma MetricIssuesAre(rows: seq<Row>, stage: Stage, m: Metric, benefit: Option<string>, issue: Issue)
    requires MetricOk(m) && Graded(stage)
    ensures issue in MetricIssues(rows, stage, m, benefit) <==> MetricHas(rows, stage, m, benefit, issue)
  {
    hide Noisy, OrderFails, DriftFails, Selected, Findings, TrialIssues, HasSix, Gap, Gain, RoleIssues, MedianIssues;
    if m.envelope.Trial? {
      TrialIssuesAre(m.name, Findings(rows, stage, m.name, m.envelope.tolerance), issue);
    } else {
      RoleIssuesAre(rows, stage, Baseline, m, issue);
      RoleIssuesAre(rows, stage, OtherRole(stage), m, issue);
      MedianIssuesAre(rows, stage, m, benefit, issue);
    }
  }

  /** Which issues a phase has. */
  ghost predicate Has(rows: seq<Row>, stage: Stage, metrics: seq<Metric>, benefit: Option<string>, issue: Issue)
    requires forall m | m in metrics :: MetricOk(m)
  {
    match issue
    case IncompleteSchedule => !OnSchedule(rows, stage)
    case Unavailable(id, name) =>
      exists row, m :: row in rows && m in metrics && row.slot.id == id && m.name == name && name !in row.metrics
    case AboveCeiling(id, name) =>
      exists row, m :: row in rows && m in metrics && row.slot.id == id && m.name == name && name in row.metrics
                       && row.metrics[name] > m.envelope.ceiling
    case _ => Graded(stage) && exists m :: m in metrics && MetricHas(rows, stage, m, benefit, issue)
  }

  lemma LimitIssueIs(row: Row, m: Metric, issue: Issue)
    ensures issue in LimitIssue(row, m) <==>
            || (m.name !in row.metrics && issue == Unavailable(row.slot.id, m.name))
            || (m.name in row.metrics && row.metrics[m.name] > m.envelope.ceiling && issue == AboveCeiling(row.slot.id, m.name))
  {
  }

  lemma LimitsExactly(rows: seq<Row>, metrics: seq<Metric>, issue: Issue)
    ensures issue in AllLimitIssues(rows, metrics) <==>
            || (issue.Unavailable? && exists row, m ::
                  row in rows && m in metrics && row.slot.id == issue.id && m.name == issue.name && m.name !in row.metrics)
            || (issue.AboveCeiling? && exists row, m ::
                  row in rows && m in metrics && row.slot.id == issue.id && m.name == issue.name && m.name in row.metrics
                  && row.metrics[m.name] > m.envelope.ceiling)
  {
    hide LimitIssue;
    AllLimitsAre(rows, metrics, issue);
    forall row, m ensures issue in LimitIssue(row, m) <==>
                          || (m.name !in row.metrics && issue == Unavailable(row.slot.id, m.name))
                          || (m.name in row.metrics && row.metrics[m.name] > m.envelope.ceiling
                              && issue == AboveCeiling(row.slot.id, m.name))
    {
      LimitIssueIs(row, m, issue);
    }
  }

  /** Grading reports exactly the issues that the phase has. */
  lemma IssuesExactly(rows: seq<Row>, stage: Stage, metrics: seq<Metric>, benefit: Option<string>, issue: Issue)
    requires forall m | m in metrics :: MetricOk(m)
    ensures issue in Grade(rows, stage, metrics, benefit) <==> Has(rows, stage, metrics, benefit, issue)
  {
    hide AllLimitIssues, AllMetricIssues, OnSchedule, MetricOk, MetricHas, MetricIssues;
    LimitsExactly(rows, metrics, issue);
    AllMetricsAre(rows, stage, metrics, benefit, issue);
    if Graded(stage) {
      forall m | m in metrics
        ensures issue in MetricIssues(rows, stage, m, benefit) <==> MetricHas(rows, stage, m, benefit, issue)
      {
        MetricIssuesAre(rows, stage, m, benefit, issue);
      }
    }
    SomeMetricHas(rows, stage, metrics, benefit, issue);
  }

  lemma SomeMetricHas(rows: seq<Row>, stage: Stage, metrics: seq<Metric>, benefit: Option<string>, issue: Issue)
    requires forall m | m in metrics :: MetricOk(m)
    ensures issue.IncompleteSchedule? || issue.Unavailable? || issue.AboveCeiling? ==>
              forall m | m in metrics :: !MetricHas(rows, stage, m, benefit, issue)
  {
  }
}
