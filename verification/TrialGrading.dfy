/** Grading of fresh-process trials at one absolute tolerance (`trial_central_four`, `trial_findings`). */
module TrialGrading {
  import opened OrderStatistics
  import opened Stages

  /** A graded attempt; a metric that is absent was not observed. */
  datatype Row = Row(slot: Slot, metrics: map<string, real>)

  datatype Finding =
    | CentralSpread(role: Role)
    | Order(role: Role)
    | Drift(role: Role)
    | PairDifference(pair: nat)
    | RoleMedian

  function Abs(x: real): real {
    if x < 0.0 then -x else x
  }

  /** Spread of the four values left after one minimum and one maximum are set aside. */
  function CentralFourSpread(values: seq<real>): real
    requires |values| == 6
  {
    var ranked := Sort(values);
    ranked[4] - ranked[1]
  }

  function Selected(rows: seq<Row>, role: Role): seq<Row> {
    if rows == [] then []
    else (if rows[0].slot.role == role then [rows[0]] else []) + Selected(rows[1..], role)
  }

  function InPosition(rows: seq<Row>, position: nat): seq<Row> {
    if rows == [] then []
    else (if rows[0].slot.position == position then [rows[0]] else []) + InPosition(rows[1..], position)
  }

  function InsertByProcess(row: Row, rows: seq<Row>): (r: seq<Row>)
    ensures |r| == |rows| + 1 && forall x | x in r :: x == row || x in rows
  {
    if rows == [] || row.slot.process <= rows[0].slot.process then [row] + rows
    else [rows[0]] + InsertByProcess(row, rows[1..])
  }

  /** `sorted(rows, key=process)`, which keeps the order of equal keys. */
  function ByProcess(rows: seq<Row>): (r: seq<Row>)
    ensures |r| == |rows| && forall x | x in r :: x in rows
  {
    if rows == [] then [] else InsertByProcess(rows[0], ByProcess(rows[1..]))
  }

  predicate Observed(rows: seq<Row>, name: string) {
    forall row | row in rows :: name in row.metrics
  }

  function Values(rows: seq<Row>, name: string): (r: seq<real>)
    requires Observed(rows, name)
    ensures |r| == |rows|
  {
    seq(|rows|, i requires 0 <= i < |rows| => rows[i].metrics[name])
  }

  /** The three medians apart by more than the tolerance. */
  predicate Apart(a: seq<Row>, b: seq<Row>, name: string, tolerance: real)
    requires Observed(a, name) && Observed(b, name) && a != [] && b != []
  {
    Abs(Median(Values(a, name)) - Median(Values(b, name))) > tolerance
  }

  lemma SelectedObserved(rows: seq<Row>, name: string, position: nat)
    requires Observed(rows, name)
    ensures Observed(InPosition(rows, position), name) && Observed(ByProcess(rows), name)
  {
    InPositionFrom(rows, position);
  }

  lemma {:induction false} InPositionFrom(rows: seq<Row>, position: nat)
    ensures forall row | row in InPosition(rows, position) :: row in rows
  {
    if rows != [] {
      InPositionFrom(rows[1..], position);
    }
  }

  predicate OrderFails(selected: seq<Row>, name: string, tolerance: real)
    requires Observed(selected, name)
  {
    SelectedObserved(selected, name, 0);
    SelectedObserved(selected, name, 1);
    var first, second := InPosition(selected, 0), InPosition(selected, 1);
    |first| != 3 || |second| != 3 || Apart(first, second, name, tolerance)
  }

  predicate DriftFails(selected: seq<Row>, name: string, tolerance: real)
    requires |selected| == 6 && Observed(selected, name)
  {
    SelectedObserved(selected, name, 0);
    var chronological := ByProcess(selected);
    Apart(chronological[..3], chronological[3..], name, tolerance)
  }

  /** The findings of one role; a role with missing attempts or values has none here. */
  function RoleFindings(rows: seq<Row>, role: Role, name: string, tolerance: real): seq<Finding> {
    var selected := Selected(rows, role);
    if |selected| != 6 || !Observed(selected, name) then []
    else
      (if CentralFourSpread(Values(selected, name)) > tolerance then [CentralSpread(role)] else [])
      + (if OrderFails(selected, name, tolerance) then [Order(role)] else [])
      + (if DriftFails(selected, name, tolerance) then [Drift(role)] else [])
  }

  /** `pairs[role]`: the observed value of each pair; a later row of the same pair wins. */
  function PairValues(rows: seq<Row>, name: string): map<nat, real> {
    if rows == [] then map[]
    else
      var last := rows[|rows| - 1];
      var front := PairValues(rows[..|rows| - 1], name);
      if name in last.metrics then front[last.slot.pair := last.metrics[name]] else front
  }

  predicate PairFails(stage: Stage, difference: real, tolerance: real) {
    if stage.Control? then Abs(difference) > tolerance else difference > tolerance
  }

  function PairFinding(stage: Stage, base: map<nat, real>, other: map<nat, real>, pair: nat, tolerance: real)
    : seq<Finding>
  {
    if pair in base && pair in other && PairFails(stage, other[pair] - base[pair], tolerance)
    then [PairDifference(pair)] else []
  }

  function PairFindings(stage: Stage, base: map<nat, real>, other: map<nat, real>, pairs: nat, tolerance: real)
    : seq<Finding>
  {
    if pairs == 0 then []
    else PairFindings(stage, base, other, pairs - 1, tolerance) + PairFinding(stage, base, other, pairs - 1, tolerance)
  }

  function RoleMedians(rows: seq<Row>, stage: Stage, name: string, tolerance: real): seq<Finding> {
    var base, other := Selected(rows, Baseline), Selected(rows, OtherRole(stage));
    if |base| == 6 && |other| == 6 && Observed(base, name) && Observed(other, name)
       && PairFails(stage, Median(Values(other, name)) - Median(Values(base, name)), tolerance)
    then [RoleMedian] else []
  }

  /** All findings, in the order in which they are reported. */
  function Findings(rows: seq<Row>, stage: Stage, name: string, tolerance: real): seq<Finding> {
    var base, other := PairValues(Selected(rows, Baseline), name), PairValues(Selected(rows, OtherRole(stage)), name);
    RoleFindings(rows, Baseline, name, tolerance)
    + RoleFindings(rows, OtherRole(stage), name, tolerance)
    + PairFindings(stage, base, other, 6, tolerance)
    + RoleMedians(rows, stage, name, tolerance)
  }

  /** `trial_findings`, for the six pairs of a schedule. */
  method TrialFindings(rows: seq<Row>, stage: Stage, name: string, tolerance: real) returns (failures: seq<Finding>)
    requires forall row | row in rows :: row.slot.pair < 6
    ensures failures == Findings(rows, stage, name, tolerance)
  {
    hide RoleFindings, RoleMedians, PairFinding;
    failures := [];
    var roles := [Baseline, OtherRole(stage)];
    var pairs: seq<map<nat, real>> := [];
    for k := 0 to 2
      invariant |pairs| == k && forall j | 0 <= j < k :: pairs[j] == PairValues(Selected(rows, roles[j]), name)
      invariant k == 0 ==> failures == []
      invariant k == 1 ==> failures == RoleFindings(rows, Baseline, name, tolerance)
      invariant k == 2 ==> failures == RoleFindings(rows, Baseline, name, tolerance)
                                       + RoleFindings(rows, OtherRole(stage), name, tolerance)
    {
      var selected := Selected(rows, roles[k]);
      pairs := pairs + [PairValues(selected, name)];
      failures := failures + RoleFindings(rows, roles[k], name, tolerance);
    }
    var perRole := failures;
    for pair := 0 to 6
      invariant failures == perRole + PairFindings(stage, pairs[0], pairs[1], pair, tolerance)
    {
      failures := failures + PairFinding(stage, pairs[0], pairs[1], pair, tolerance);
    }
    failures := failures + RoleMedians(rows, stage, name, tolerance);
  }

  // ----- a complete balanced schedule ---------------------------------------------------------

  ghost predicate Complete(rows: seq<Row>, stage: Stage, name: string) {
    && (stage.Control? || stage.Comparison?)
    && |rows| == 12
    && (forall i | 0 <= i < 12 :: rows[i].slot == PairedSlot(stage, i))
    && Observed(rows, name)
  }

  /** The six values of the baseline, by pair. */
  function BaselineValues(rows: seq<Row>, name: string): (r: seq<real>)
    requires |rows| == 12 && Observed(rows, name)
    ensures |r| == 6
  {
    Values([rows[0], rows[3], rows[4], rows[7], rows[8], rows[11]], name)
  }

  /** The six values of the other role, by pair. */
  function OtherValues(rows: seq<Row>, name: string): (r: seq<real>)
    requires |rows| == 12 && Observed(rows, name)
    ensures |r| == 6
  {
    Values([rows[1], rows[2], rows[5], rows[6], rows[9], rows[10]], name)
  }

  lemma {:induction false} SelectedConcat(a: seq<Row>, b: seq<Row>, role: Role)
    ensures Selected(a + b, role) == Selected(a, role) + Selected(b, role)
  {
    if a == [] {
      assert a + b == b;
    } else {
      assert (a + b)[0] == a[0] && (a + b)[1..] == a[1..] + b;
      SelectedConcat(a[1..], b, role);
      var first := if a[0].slot.role == role then [a[0]] else [];
      assert Selected(a, role) == first + Selected(a[1..], role);
      assert Selected(a + b, role) == first + Selected(a[1..] + b, role);
    }
  }

  lemma SelectedPair(x: Row, y: Row, role: Role)
    requires x.slot.role != y.slot.role
    ensures x.slot.role == role ==> Selected([x, y], role) == [x]
    ensures y.slot.role == role ==> Selected([x, y], role) == [y]
  {
    assert [x, y][1..] == [y] && [y][1..] == [];
    assert Selected([y], role) == if y.slot.role == role then [y] else [];
  }

  lemma SelectedTwoPairs(rows: seq<Row>, stage: Stage, k: nat)
    requires |rows| == 12 && (stage.Control? || stage.Comparison?) && k < 3
    requires forall i | 0 <= i < 12 :: rows[i].slot == PairedSlot(stage, i)
    ensures Selected(rows[4 * k..4 * k + 4], Baseline) == [rows[4 * k], rows[4 * k + 3]]
    ensures Selected(rows[4 * k..4 * k + 4], OtherRole(stage)) == [rows[4 * k + 1], rows[4 * k + 2]]
  {
    hide PairedSlot;
    var i := 4 * k;
    Balanced(stage, 2 * k);
    Balanced(stage, 2 * k + 1);
    assert rows[i..i + 4] == [rows[i], rows[i + 1]] + [rows[i + 2], rows[i + 3]];
    SelectedConcat([rows[i], rows[i + 1]], [rows[i + 2], rows[i + 3]], Baseline);
    SelectedConcat([rows[i], rows[i + 1]], [rows[i + 2], rows[i + 3]], OtherRole(stage));
    SelectedPair(rows[i], rows[i + 1], Baseline);
    SelectedPair(rows[i + 2], rows[i + 3], Baseline);
    SelectedPair(rows[i], rows[i + 1], OtherRole(stage));
    SelectedPair(rows[i + 2], rows[i + 3], OtherRole(stage));
  }

  lemma SelectedSplit(rows: seq<Row>, role: Role)
    requires |rows| == 12
    ensures Selected(rows, role) ==
            Selected(rows[0..4], role) + Selected(rows[4..8], role) + Selected(rows[8..12], role)
  {
    hide Selected;
    var a, b, c := rows[0..4], rows[4..8], rows[8..12];
    assert rows == a + b + c;
    SelectedConcat(a + b, c, role);
    SelectedConcat(a, b, role);
  }

  lemma SelectedComplete(rows: seq<Row>, stage: Stage, name: string)
    requires Complete(rows, stage, name)
    ensures Selected(rows, Baseline) == [rows[0], rows[3], rows[4], rows[7], rows[8], rows[11]]
    ensures Selected(rows, OtherRole(stage)) == [rows[1], rows[2], rows[5], rows[6], rows[9], rows[10]]
  {
    hide Selected, PairedSlot;
    SelectedSplit(rows, Baseline);
    SelectedSplit(rows, OtherRole(stage));
    SelectedTwoPairs(rows, stage, 0);
    SelectedTwoPairs(rows, stage, 1);
    SelectedTwoPairs(rows, stage, 2);
  }

  // ----- order and drift follow from the central spread ---------------------------------------

  /** Six rows of one role: one per process, in alternating positions. */
  ghost predicate Alternating(six: seq<Row>, start: nat) {
    |six| == 6 && forall i | 0 <= i < 6 :: six[i].slot.process == i && six[i].slot.position == (start + i) % 2
  }

  lemma InPositionPairs(six: seq<Row>, start: nat, position: nat)
    requires Alternating(six, start) && position < 2
    ensures InPosition(six, position) ==
            if position == start % 2 then [six[0], six[2], six[4]] else [six[1], six[3], six[5]]
  {
    forall i | 0 <= i < 6
      ensures InPosition(six[i..], position) ==
              (if six[i].slot.position == position then [six[i]] else []) + InPosition(six[i + 1..], position)
    {
      assert six[i..][0] == six[i] && six[i..][1..] == six[i + 1..];
    }
    assert six[6..] == [] && six[0..] == six;
    assert InPosition(six[6..], position) == [];
  }

  lemma {:induction false} ByProcessKeeps(rows: seq<Row>)
    requires forall i, j | 0 <= i < j < |rows| :: rows[i].slot.process <= rows[j].slot.process
    ensures ByProcess(rows) == rows
  {
    if rows != [] {
      ByProcessKeeps(rows[1..]);
      assert rows == [rows[0]] + rows[1..];
    }
  }

  lemma CountThree(a: real, b: real, c: real, x: real)
    ensures CountLe([a, b, c], x) == (if a <= x then 1 else 0) + (if b <= x then 1 else 0) + (if c <= x then 1 else 0)
  {
    assert [a, b, c][1..] == [b, c] && [b, c][1..] == [c] && [c][1..] == [];
    assert CountLe([], x) == 0;
    assert CountLe([c], x) == if c <= x then 1 else 0;
    assert CountLe([b, c], x) == (if b <= x then 1 else 0) + CountLe([c], x);
  }

  /** Any median of three of six values lies between the second and the fifth of them. */
  lemma MedianOfThree(v: seq<real>, a: seq<real>, b: seq<real>)
    requires |v| == 6 && |a| == 3 && |b| == 3
    requires forall x :: CountLe(v, x) == CountLe(a, x) + CountLe(b, x)
    ensures Kth(v, 1) <= Median(a) <= Kth(v, 4)
  {
    hide CountLe;
    KthOfPart(v, a, b, 1);
  }

  lemma HalvesWithin(v: seq<real>, a: seq<real>, b: seq<real>)
    requires |v| == 6 && |a| == 3 && |b| == 3
    requires forall x :: CountLe(v, x) == CountLe(a, x) + CountLe(b, x)
    ensures Abs(Median(a) - Median(b)) <= CentralFourSpread(v)
  {
    hide CountLe, Median;
    MedianOfThree(v, a, b);
    MedianOfThree(v, b, a);
  }

  /** Both ways of cutting six runs in two, by position and by time, differ by at most the central spread. */
  lemma OrderAndDriftWithin(v: seq<real>)
    requires |v| == 6
    ensures Abs(Median([v[0], v[2], v[4]]) - Median([v[1], v[3], v[5]])) <= CentralFourSpread(v)
    ensures Abs(Median(v[..3]) - Median(v[3..])) <= CentralFourSpread(v)
  {
    hide CountLe, Median, CentralFourSpread;
    assert v[..3] == [v[0], v[1], v[2]] && v[3..] == [v[3], v[4], v[5]] && v == v[..3] + v[3..];
    forall x
      ensures CountLe(v, x) == CountLe(v[..3], x) + CountLe(v[3..], x)
      ensures CountLe(v, x) == CountLe([v[0], v[2], v[4]], x) + CountLe([v[1], v[3], v[5]], x)
    {
      CountConcat(v[..3], v[3..], x);
      CountThree(v[0], v[1], v[2], x);
      CountThree(v[3], v[4], v[5], x);
      CountThree(v[0], v[2], v[4], x);
      CountThree(v[1], v[3], v[5], x);
    }
    HalvesWithin(v, v[..3], v[3..]);
    HalvesWithin(v, [v[0], v[2], v[4]], [v[1], v[3], v[5]]);
  }

  lemma OrderWithin(six: seq<Row>, start: nat, name: string, tolerance: real)
    requires Alternating(six, start) && Observed(six, name)
    requires CentralFourSpread(Values(six, name)) <= tolerance
    ensures !OrderFails(six, name, tolerance)
  {
    InPositionPairs(six, start, 0);
    InPositionPairs(six, start, 1);
    ValuesParity(six, name);
    hide CentralFourSpread, Median, InPosition, Values, Observed, Alternating, Abs;
    OrderAndDriftWithin(Values(six, name));
  }

  lemma ValuesParity(six: seq<Row>, name: string)
    requires |six| == 6 && Observed(six, name)
    ensures Observed([six[0], six[2], six[4]], name) && Observed([six[1], six[3], six[5]], name)
    ensures var v := Values(six, name);
            && Values([six[0], six[2], six[4]], name) == [v[0], v[2], v[4]]
            && Values([six[1], six[3], six[5]], name) == [v[1], v[3], v[5]]
  {
  }

  lemma ValuesHalves(six: seq<Row>, name: string)
    requires |six| == 6 && Observed(six, name)
    ensures Observed(six[..3], name) && Observed(six[3..], name)
    ensures Values(six[..3], name) == Values(six, name)[..3] && Values(six[3..], name) == Values(six, name)[3..]
  {
  }

  lemma DriftWithin(six: seq<Row>, start: nat, name: string, tolerance: real)
    requires Alternating(six, start) && Observed(six, name)
    requires CentralFourSpread(Values(six, name)) <= tolerance
    ensures !DriftFails(six, name, tolerance)
  {
    ByProcessKeeps(six);
    ValuesHalves(six, name);
    hide CentralFourSpread, Median, ByProcess, Values, Alternating, Observed;
    OrderAndDriftWithin(Values(six, name));
  }

  /** For a complete role the central spread alone decides. */
  lemma RoleFindingsEmptyIff(rows: seq<Row>, role: Role, six: seq<Row>, start: nat, name: string, tolerance: real)
    requires Selected(rows, role) == six && Alternating(six, start) && Observed(six, name)
    ensures RoleFindings(rows, role, name, tolerance) == [] <==> CentralFourSpread(Values(six, name)) <= tolerance
  {
    hide CentralFourSpread, OrderFails, DriftFails, Selected, Values;
    if CentralFourSpread(Values(six, name)) <= tolerance {
      OrderWithin(six, start, name, tolerance);
      DriftWithin(six, start, name, tolerance);
    }
  }

  // ----- pairs ----------------------------------------------------------------------------------

  lemma PairValuesOfSix(six: seq<Row>, name: string)
    requires |six| == 6 && Observed(six, name) && forall i | 0 <= i < 6 :: six[i].slot.pair == i
    ensures forall i: nat | i < 6 :: i in PairValues(six, name) && PairValues(six, name)[i] == six[i].metrics[name]
  {
    PairValuesPrefix(six, name, 6);
    assert six[..6] == six;
  }

  lemma {:induction false} PairValuesPrefix(rows: seq<Row>, name: string, n: nat)
    requires n <= |rows| && Observed(rows, name) && forall i | 0 <= i < |rows| :: rows[i].slot.pair == i
    ensures forall i: nat | i < n :: i in PairValues(rows[..n], name) && PairValues(rows[..n], name)[i] == rows[i].metrics[name]
  {
    if n > 0 {
      PairValuesPrefix(rows, name, n - 1);
      assert rows[..n][..n - 1] == rows[..n - 1] && rows[..n][n - 1] == rows[n - 1];
    }
  }

  lemma {:induction false} PairFindingsEmptyIff(stage: Stage, base: map<nat, real>, other: map<nat, real>, pairs: nat,
                                                tolerance: real)
    requires forall i: nat | i < pairs :: i in base && i in other
    ensures PairFindings(stage, base, other, pairs, tolerance) == [] <==>
            forall i: nat | i < pairs :: !PairFails(stage, other[i] - base[i], tolerance)
  {
    hide PairFails;
    if pairs > 0 {
      PairFindingsEmptyIff(stage, base, other, pairs - 1, tolerance);
    }
  }

  /** Role medians differ by no more than the pairs allow. */
  lemma RoleMedianFollows(stage: Stage, base: seq<real>, other: seq<real>, tolerance: real)
    requires |base| == |other| && base != []
    requires forall i | 0 <= i < |base| :: !PairFails(stage, other[i] - base[i], tolerance)
    ensures !PairFails(stage, Median(other) - Median(base), tolerance)
  {
    hide Median;
    assert forall i | 0 <= i < |base| :: other[i] - base[i] <= tolerance;
    MedianDominated(other, base, tolerance);
    if stage.Control? {
      assert forall i | 0 <= i < |base| :: base[i] - other[i] <= tolerance;
      MedianDominated(base, other, tolerance);
    }
  }

  /** Every pair is within the tolerance: in both directions for a control, one-sided for a comparison. */
  ghost predicate PairsWithin(stage: Stage, base: seq<real>, other: seq<real>, tolerance: real)
    requires |base| == |other|
  {
    forall i | 0 <= i < |base| :: !PairFails(stage, other[i] - base[i], tolerance)
  }

  lemma SixDifferences(stage: Stage, b: map<nat, real>, o: map<nat, real>, base: seq<real>, other: seq<real>,
                       tolerance: real)
    requires |base| == 6 && |other| == 6
    requires forall i: nat | i < 6 :: i in b && b[i] == base[i] && i in o && o[i] == other[i]
    ensures PairsWithin(stage, base, other, tolerance) <==>
            forall i: nat | i < 6 :: !PairFails(stage, o[i] - b[i], tolerance)
  {
    hide PairFails;
    if forall i: nat | i < 6 :: !PairFails(stage, o[i] - b[i], tolerance) {
      forall i | 0 <= i < 6 ensures !PairFails(stage, other[i] - base[i], tolerance) {
        assert !PairFails(stage, o[i] - b[i], tolerance);
      }
    }
  }

  lemma PairsOfSixEmptyIff(stage: Stage, base: seq<Row>, other: seq<Row>, name: string, tolerance: real)
    requires |base| == 6 && |other| == 6 && Observed(base, name) && Observed(other, name)
    requires forall i | 0 <= i < 6 :: base[i].slot.pair == i && other[i].slot.pair == i
    ensures PairFindings(stage, PairValues(base, name), PairValues(other, name), 6, tolerance) == [] <==>
            PairsWithin(stage, Values(base, name), Values(other, name), tolerance)
  {
    hide PairFails, PairFindings, PairValues;
    PairValuesOfSix(base, name);
    PairValuesOfSix(other, name);
    PairFindingsEmptyIff(stage, PairValues(base, name), PairValues(other, name), 6, tolerance);
    SixDifferences(stage, PairValues(base, name), PairValues(other, name), Values(base, name), Values(other, name), tolerance);
  }

  lemma CompleteRoles(rows: seq<Row>, stage: Stage, name: string)
    requires Complete(rows, stage, name)
    ensures var base, other := Selected(rows, Baseline), Selected(rows, OtherRole(stage));
            && Alternating(base, 0) && Alternating(other, 1) && Observed(base, name) && Observed(other, name)
            && Values(base, name) == BaselineValues(rows, name) && Values(other, name) == OtherValues(rows, name)
            && (forall i | 0 <= i < 6 :: base[i].slot.pair == i && other[i].slot.pair == i)
  {
    SelectedComplete(rows, stage, name);
    hide Selected;
  }

  /**
   Trial grading collapses: on a complete balanced schedule there is no finding exactly when the central-four spread
   of each role and every pair difference are within the tolerance.
   */
  lemma TrialGradingCollapses(rows: seq<Row>, stage: Stage, name: string, tolerance: real)
    requires Complete(rows, stage, name)
    ensures Findings(rows, stage, name, tolerance) == [] <==>
            && CentralFourSpread(BaselineValues(rows, name)) <= tolerance
            && CentralFourSpread(OtherValues(rows, name)) <= tolerance
            && PairsWithin(stage, BaselineValues(rows, name), OtherValues(rows, name), tolerance)
  {
    hide Selected, RoleFindings, CentralFourSpread, Median, Alternating, PairFails, PairedSlot, PairFindings, PairValues;
    CompleteRoles(rows, stage, name);
    var base, other := Selected(rows, Baseline), Selected(rows, OtherRole(stage));
    assert |base| == 6 && |other| == 6 by { SixOfRole(rows, stage, name); }
    var b, o := BaselineValues(rows, name), OtherValues(rows, name);
    RoleFindingsEmptyIff(rows, Baseline, base, 0, name, tolerance);
    RoleFindingsEmptyIff(rows, OtherRole(stage), other, 1, name, tolerance);
    PairsOfSixEmptyIff(stage, base, other, name, tolerance);
    if PairsWithin(stage, b, o, tolerance) {
      RoleMedianFollows(stage, b, o, tolerance);
    }
  }

  lemma SixOfRole(rows: seq<Row>, stage: Stage, name: string)
    requires Complete(rows, stage, name)
    ensures |Selected(rows, Baseline)| == 6 && |Selected(rows, OtherRole(stage))| == 6
  {
    SelectedComplete(rows, stage, name);
  }
}
