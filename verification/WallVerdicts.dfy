/** When a wall metric is budgeted, passes its control and shows its benefit, as conditions on the observed values. */
module WallVerdicts {
  import opened Wrappers
  import opened OrderStatistics
  import opened WallBudgets

  /** The median of integer observations. */
  function Middle(values: seq<int>): real
    requires values != []
  {
    Median(Reals(values))
  }

  /** Two medians are apart by at most the allowance. */
  predicate Near(a: seq<int>, b: seq<int>, allowance: int)
    requires a != [] && b != []
  {
    -(allowance as real) <= Middle(a) - Middle(b) <= allowance as real
  }

  predicate IsLargest(x: int, values: seq<int>) {
    x in values && forall v | v in values :: v <= x
  }

  /** The difference of the largest and the smallest value. */
  predicate IsSpread(x: int, values: seq<int>) {
    && (exists a, b :: a in values && b in values && x == a - b)
    && (forall a, b | a in values && b in values :: a - b <= x)
  }

  /** The spread is within 15% of the median, which counts for at least twice the clock. */
  predicate Steady(values: seq<int>, spread: int, clock: int)
    requires values != []
  {
    spread as real <= 0.15 * (if Middle(values) < (2 * clock) as real then (2 * clock) as real else Middle(values))
  }

  // ----- extremes -------------------------------------------------------------------------------

  lemma ExtremeValues(values: seq<int>)
    requires values != []
    ensures IsLargest(Largest(values), values) && IsSpread(Spread(values), values)
  {
    hide Sorted;
    ExtremesOccur(values);
    forall v | v in values ensures Smallest(values) <= v <= Largest(values) {
      var i :| 0 <= i < |values| && values[i] == v;
      WithinExtremes(values, i);
    }
    assert Largest(values) - Smallest(values) == Spread(values);
  }

  lemma ExtremesOccur(values: seq<int>)
    requires values != []
    ensures Largest(values) in values && Smallest(values) in values
  {
    RankOccurs(values, 0);
    RankOccurs(values, |values| - 1);
  }

  lemma RankOccurs(values: seq<int>, k: nat)
    requires k < |values|
    ensures Sorted(values)[k] in values
  {
    SortedIs(values, k);
    KthIsValue(Reals(values), k);
    var i :| 0 <= i < |values| && Reals(values)[i] == Kth(Reals(values), k);
    assert values[i] as real == Sorted(values)[k] as real;
  }

  lemma SpreadUnique(x: int, y: int, values: seq<int>)
    ensures IsSpread(x, values) && IsSpread(y, values) ==> x == y
    ensures IsLargest(x, values) && IsLargest(y, values) ==> x == y
  {
  }

  // ----- calibration ----------------------------------------------------------------------------

  lemma NoisyIs(values: seq<int>, clock: int)
    requires values != [] && clock > 0
    ensures !Noisy(values, clock) <==> Steady(values, Spread(values), clock)
  {
    hide Spread, Median;
    var scale := if Median(Reals(values)) < (2 * clock) as real then (2 * clock) as real else Median(Reals(values));
    RatioIs(Spread(values) as real, scale);
  }

  lemma RatioIs(x: real, y: real)
    requires y > 0.0
    ensures x / y > 0.15 <==> x > 0.15 * y
  {
    if x / y > 0.15 {
      assert x / y * y > 0.15 * y;
    } else {
      assert x / y * y <= 0.15 * y;
    }
  }

  /** A metric is budgeted exactly for six steady values. */
  lemma BudgetedIff(values: seq<int>, clocks: seq<int>, clock: int, spread: int)
    requires |values| == |clocks| && (forall i | 0 <= i < |clocks| :: clocks[i] >= 1)
    requires |values| == 6 ==> IsLargest(clock, clocks) && IsSpread(spread, values)
    ensures Derive(values, clocks).Ok? <==> |values| == 6 && Steady(values, spread, clock)
  {
    if |values| == 6 {
      ExtremeValues(values);
      ExtremeValues(clocks);
      SpreadUnique(spread, Spread(values), values);
      SpreadUnique(clock, Largest(clocks), clocks);
      ClockPositive(clocks);
      NoisyIs(values, clock);
    }
    hide Spread, Largest, Smallest, Noisy, MedianTwice, IsSpread, IsLargest, Steady;
  }

  /**
   The frozen limits: the clock is the largest one, the empirical allowance is the spread or twice the clock, whichever is
   larger, and the limit is the largest value plus the empirical allowance.
   */
  lemma BudgetIs(values: seq<int>, clocks: seq<int>)
    requires |values| == |clocks| && (forall i | 0 <= i < |clocks| :: clocks[i] >= 1) && Derive(values, clocks).Ok?
    ensures var b := Derive(values, clocks).value;
            && IsLargest(b.clock, clocks) && IsLargest(b.limit - b.empirical, values)
            && (IsSpread(b.empirical, values) || b.empirical == 2 * b.clock) && b.empirical >= 2 * b.clock
            && (forall x, y | x in values && y in values :: x - y <= b.empirical)
  {
    ExtremeValues(values);
    ExtremeValues(clocks);
    hide Spread, Largest, Smallest, MedianTwice;
    ClockPositive(clocks);
    hide Noisy;
  }

  // ----- roles ----------------------------------------------------------------------------------

  /** The rows of a role, arranged by process. */
  predicate Arranges(ordered: seq<Row>, rows: seq<Row>) {
    |ordered| == 6 && multiset(ordered) == multiset(rows) && forall p | 0 <= p < 6 :: ordered[p].process == p
  }

  lemma {:induction false} PartsPermute(a: seq<Row>, b: seq<Row>, position: nat, first: bool)
    requires multiset(a) == multiset(b)
    ensures multiset(AtPosition(a, position)) == multiset(AtPosition(b, position))
    ensures multiset(InHalf(a, first)) == multiset(InHalf(b, first)) && multiset(Values(a)) == multiset(Values(b))
  {
    if a == [] {
      assert b == [] by { assert |b| == |multiset(b)| == |multiset(a)|; }
    } else {
      var front, last := a[..|a| - 1], a[|a| - 1];
      var j := RemoveLast(a, b);
      PartsPermute(front, b[..j] + b[j + 1..], position, first);
      PartsWithout(b, j, position, first);
      PartsWithout(a, |a| - 1, position, first);
      assert front + a[|a|..] == front;
    }
  }

  /** The last row of `a`, found in a permutation of it. */
  lemma RemoveLast(a: seq<Row>, b: seq<Row>) returns (j: nat)
    requires a != [] && multiset(a) == multiset(b)
    ensures j < |b| && b[j] == a[|a| - 1] && multiset(b[..j] + b[j + 1..]) == multiset(a[..|a| - 1])
  {
    var last := a[|a| - 1];
    assert last in multiset(a);
    assert last in multiset(b);
    j :| 0 <= j < |b| && b[j] == last;
    Removed(b, j);
    Removed(a, |a| - 1);
    assert a[..|a| - 1] + a[|a|..] == a[..|a| - 1];
  }

  lemma Removed(s: seq<Row>, j: nat)
    requires j < |s|
    ensures multiset(s[..j] + s[j + 1..]) == multiset(s) - multiset{s[j]}
  {
    assert s == s[..j] + [s[j]] + s[j + 1..];
  }

  lemma {:induction false} PartsConcat(a: seq<Row>, b: seq<Row>, position: nat, first: bool)
    ensures AtPosition(a + b, position) == AtPosition(a, position) + AtPosition(b, position)
    ensures InHalf(a + b, first) == InHalf(a, first) + InHalf(b, first) && Values(a + b) == Values(a) + Values(b)
  {
    if b == [] {
      assert a + b == a;
    } else {
      var front := b[..|b| - 1];
      assert (a + b)[..|a + b| - 1] == a + front && (a + b)[|a + b| - 1] == b[|b| - 1];
      PartsConcat(a, front, position, first);
    }
  }

  lemma OnePart(row: Row, position: nat, first: bool)
    ensures AtPosition([row], position) == if row.position == position then [row.value] else []
    ensures InHalf([row], first) == (if (row.process < 3) == first then [row.value] else []) && Values([row]) == [row.value]
  {
    assert [row][..0] == [];
    assert AtPosition([], position) == [] && InHalf([], first) == [];
  }

  lemma PartsWithout(b: seq<Row>, j: nat, position: nat, first: bool)
    requires j < |b|
    ensures var rest := b[..j] + b[j + 1..];
            && multiset(AtPosition(b, position)) == multiset(AtPosition(rest, position)) + multiset(AtPosition([b[j]], position))
            && multiset(InHalf(b, first)) == multiset(InHalf(rest, first)) + multiset(InHalf([b[j]], first))
            && multiset(Values(b)) == multiset(Values(rest)) + multiset(Values([b[j]]))
  {
    assert b == b[..j] + [b[j]] + b[j + 1..];
    PartsConcat(b[..j] + [b[j]], b[j + 1..], position, first);
    PartsConcat(b[..j], [b[j]], position, first);
    PartsConcat(b[..j], b[j + 1..], position, first);
  }

  /** The values of the processes that start in a position: the even ones of a baseline start first. */
  function Started(v: seq<int>, role: Role, position: nat): (r: seq<int>)
    requires |v| == 6
    ensures |r| == 3
  {
    if role.Baseline? == (position == 0) then [v[0], v[2], v[4]] else [v[1], v[3], v[5]]
  }

  /** The values of a complete role by process. */
  lemma ArrangedParts(ordered: seq<Row>, rows: seq<Row>, role: Role)
    requires Arranges(ordered, rows) && forall p | 0 <= p < 6 :: ordered[p].position == PositionOf(role, p)
    ensures var v := Values(ordered);
            && multiset(AtPosition(rows, 0)) == multiset(Started(v, role, 0))
            && multiset(AtPosition(rows, 1)) == multiset(Started(v, role, 1))
            && multiset(InHalf(rows, true)) == multiset([v[0], v[1], v[2]])
            && multiset(InHalf(rows, false)) == multiset([v[3], v[4], v[5]])
  {
    hide AtPosition, InHalf, Values;
    PartsPermute(ordered, rows, 0, true);
    PartsPermute(ordered, rows, 1, false);
    StartedParts(ordered, role);
    ByHalf(ordered);
  }

  lemma StartedParts(o: seq<Row>, role: Role)
    requires |o| == 6 && forall p | 0 <= p < 6 :: o[p].position == PositionOf(role, p)
    ensures AtPosition(o, 0) == Started(Values(o), role, 0) && AtPosition(o, 1) == Started(Values(o), role, 1)
  {
    hide AtPosition, Values;
    ByPosition(o, if role.Baseline? then 0 else 1);
  }

  lemma ByPosition(o: seq<Row>, start: nat)
    requires |o| == 6 && start < 2 && forall p | 0 <= p < 6 :: o[p].position == (start + p) % 2
    ensures var v := Values(o);
            && AtPosition(o, start) == [v[0], v[2], v[4]] && AtPosition(o, 1 - start) == [v[1], v[3], v[5]]
  {
    hide AtPosition, InHalf;
    SixParts(o, start, true);
    SixParts(o, 1 - start, true);
  }

  lemma ByHalf(o: seq<Row>)
    requires |o| == 6 && forall p | 0 <= p < 6 :: o[p].process == p
    ensures var v := Values(o);
            InHalf(o, true) == [v[0], v[1], v[2]] && InHalf(o, false) == [v[3], v[4], v[5]]
  {
    hide AtPosition, InHalf;
    SixParts(o, 0, true);
    SixParts(o, 0, false);
  }

  lemma SixParts(o: seq<Row>, position: nat, first: bool)
    requires |o| == 6
    ensures AtPosition(o, position) == AtPosition([o[0]], position) + AtPosition([o[1]], position) + AtPosition([o[2]], position)
                                       + AtPosition([o[3]], position) + AtPosition([o[4]], position) + AtPosition([o[5]], position)
    ensures InHalf(o, first) == InHalf([o[0]], first) + InHalf([o[1]], first) + InHalf([o[2]], first)
                                + InHalf([o[3]], first) + InHalf([o[4]], first) + InHalf([o[5]], first)
    ensures forall k | 0 <= k < 6 :: AtPosition([o[k]], position) == (if o[k].position == position then [o[k].value] else [])
                                     && InHalf([o[k]], first) == (if (o[k].process < 3) == first then [o[k].value] else [])
  {
    hide AtPosition, InHalf;
    assert o == [o[0]] + [o[1]] + [o[2]] + [o[3]] + [o[4]] + [o[5]];
    PartsConcat([o[0]] + [o[1]] + [o[2]] + [o[3]] + [o[4]], [o[5]], position, first);
    PartsConcat([o[0]] + [o[1]] + [o[2]] + [o[3]], [o[4]], position, first);
    PartsConcat([o[0]] + [o[1]] + [o[2]], [o[3]], position, first);
    PartsConcat([o[0]] + [o[1]], [o[2]], position, first);
    PartsConcat([o[0]], [o[1]], position, first);
    forall k | 0 <= k < 6
      ensures AtPosition([o[k]], position) == (if o[k].position == position then [o[k].value] else [])
              && InHalf([o[k]], first) == (if (o[k].process < 3) == first then [o[k].value] else [])
    {
      OnePart(o[k], position, first);
    }
  }

  lemma ApartIs(a: seq<int>, b: seq<int>, c: seq<int>, d: seq<int>, allowance: int)
    requires a != [] && b != [] && multiset(a) == multiset(c) && multiset(b) == multiset(d)
    ensures c != [] && d != []
    ensures Abs(MedianTwice(a) - MedianTwice(b)) > 2 * allowance <==> !Near(c, d, allowance)
    ensures Near(c, d, allowance) <==> Near(d, c, allowance)
  {
    hide MedianTwice, Median, Sorted;
    SameMedian(a, c);
    SameMedian(b, d);
    MedianTwiceIsExact(a);
    MedianTwiceIsExact(b);
    assert (2 * allowance) as real == 2.0 * allowance as real;
  }

  lemma OrderIs(ordered: seq<Row>, rows: seq<Row>, role: Role, allowance: int)
    requires Arranges(ordered, rows) && forall p | 0 <= p < 6 :: ordered[p].position == PositionOf(role, p)
    ensures var v := Values(ordered);
            !OrderFails(rows, allowance) <==> Near([v[0], v[2], v[4]], [v[1], v[3], v[5]], allowance)
  {
    hide AtPosition, InHalf, MedianTwice, Near, Values, Started;
    ArrangedParts(ordered, rows, role);
    var v := Values(ordered);
    StartedNear(v, role, allowance);
    var first, second := Started(v, role, 0), Started(v, role, 1);
    NotEmpty(AtPosition(rows, 0), first);
    NotEmpty(AtPosition(rows, 1), second);
    ApartIs(AtPosition(rows, 0), AtPosition(rows, 1), first, second, allowance);
  }

  lemma StartedNear(v: seq<int>, role: Role, allowance: int)
    requires |v| == 6
    ensures Near(Started(v, role, 0), Started(v, role, 1), allowance) <==> Near([v[0], v[2], v[4]], [v[1], v[3], v[5]], allowance)
  {
    hide Median;
  }

  lemma DriftIs(ordered: seq<Row>, rows: seq<Row>, role: Role, allowance: int)
    requires Arranges(ordered, rows) && forall p | 0 <= p < 6 :: ordered[p].position == PositionOf(role, p)
    ensures var v := Values(ordered);
            !DriftFails(rows, allowance) <==> Near([v[0], v[1], v[2]], [v[3], v[4], v[5]], allowance)
  {
    hide AtPosition, InHalf, MedianTwice, Near, Values, Started;
    ArrangedParts(ordered, rows, role);
    var v := Values(ordered);
    var early, late := [v[0], v[1], v[2]], [v[3], v[4], v[5]];
    NotEmpty(InHalf(rows, true), early);
    NotEmpty(InHalf(rows, false), late);
    ApartIs(InHalf(rows, true), InHalf(rows, false), early, late, allowance);
  }

  lemma NotEmpty(a: seq<int>, b: seq<int>)
    requires multiset(a) == multiset(b) && b != []
    ensures a != []
  {
    assert |a| == |multiset(a)| == |multiset(b)| == |b|;
  }

  /** A complete role can be arranged by process, each in its position: even processes first in the baseline. */
  lemma CompleteIs(ordered: seq<Row>, rows: seq<Row>, role: Role)
    requires Arranges(ordered, rows)
    ensures Complete(rows, role) <==>
            forall p | 0 <= p < 6 :: ordered[p].position == if role.Baseline? then p % 2 else 1 - p % 2
  {
    assert |rows| == |multiset(rows)| == |multiset(ordered)| == 6;
    forall p: nat | p < 6 ensures HasProcess(rows, p) {
      assert ordered[p] in multiset(rows);
      var i :| 0 <= i < |rows| && rows[i] == ordered[p];
    }
    if Complete(rows, role) {
      forall p | 0 <= p < 6 ensures ordered[p].position == if role.Baseline? then p % 2 else 1 - p % 2 {
        assert ordered[p] in multiset(rows);
        var i :| 0 <= i < |rows| && rows[i] == ordered[p];
      }
    } else {
      var i :| 0 <= i < |rows| && rows[i].position != PositionOf(role, rows[i].process);
      assert rows[i] in multiset(ordered);
      var p :| 0 <= p < 6 && ordered[p] == rows[i];
    }
  }

  lemma BelowIs(ordered: seq<Row>, rows: seq<Row>, limit: int)
    requires Arranges(ordered, rows)
    ensures BelowLimit(rows, limit) <==> forall p | 0 <= p < 6 :: ordered[p].value <= limit
  {
    if BelowLimit(rows, limit) {
      forall p | 0 <= p < 6 ensures ordered[p].value <= limit {
        assert ordered[p] in multiset(rows);
        var i :| 0 <= i < |rows| && rows[i] == ordered[p];
      }
    } else {
      var i :| 0 <= i < |rows| && rows[i].value > limit;
      assert rows[i] in multiset(ordered);
      var p :| 0 <= p < 6 && ordered[p] == rows[i];
    }
  }

  lemma SteadyIs(ordered: seq<Row>, rows: seq<Row>, clock: int, spread: int)
    requires Arranges(ordered, rows) && clock > 0 && IsSpread(spread, Values(ordered))
    ensures rows != [] && (!Noisy(Values(rows), clock) <==> Steady(Values(ordered), spread, clock))
    ensures Spread(Values(rows)) == spread
  {
    hide Sorted;
    assert |rows| == |multiset(rows)| == |multiset(ordered)| == 6;
    PartsPermute(ordered, rows, 0, true);
    SamePermutation(Values(rows), Values(ordered));
    SameMedian(Values(rows), Values(ordered));
    ExtremeValues(Values(ordered));
    SpreadUnique(spread, Spread(Values(ordered)), Values(ordered));
    assert Spread(Values(rows)) == Spread(Values(ordered));
    NoisyIs(Values(rows), clock);
  }

  /**
   The rows of one role pass a control exactly when every process is in its position and below the limit, the spread is
   within 15%, and the medians of both positions and of both halves are apart by at most the allowance.
   */
  lemma RolePassesIff(ordered: seq<Row>, rows: seq<Row>, role: Role, budget: Budget, spread: int)
    requires Arranges(ordered, rows) && budget.clock > 0 && IsSpread(spread, Values(ordered))
    ensures var v := Values(ordered);
            RolePasses(rows, role, budget) <==>
            && (forall p | 0 <= p < 6 :: ordered[p].position == if role.Baseline? then p % 2 else 1 - p % 2)
            && (forall p | 0 <= p < 6 :: ordered[p].value <= budget.limit)
            && Steady(v, spread, budget.clock)
            && Near([v[0], v[2], v[4]], [v[1], v[3], v[5]], budget.control)
            && Near([v[0], v[1], v[2]], [v[3], v[4], v[5]], budget.control)
  {
    CompleteIs(ordered, rows, role);
    BelowIs(ordered, rows, budget.limit);
    SteadyIs(ordered, rows, budget.clock, spread);
    hide Noisy, Steady, Near, OrderFails, DriftFails, Values, IsSpread, Complete, BelowLimit;
    if forall p | 0 <= p < 6 :: ordered[p].position == PositionOf(role, p) {
      OrderIs(ordered, rows, role, budget.control);
      DriftIs(ordered, rows, role, budget.control);
    }
  }

  /** Rows that cannot be arranged by process do not pass. */
  lemma UnarrangedFails(rows: seq<Row>, role: Role, budget: Budget)
    requires budget.clock > 0 && RolePasses(rows, role, budget)
    ensures exists ordered :: Arranges(ordered, rows)
  {
    hide Noisy, OrderFails, DriftFails;
    var ordered := Arranged(rows);
    assert Arranges(ordered, rows);
  }

  lemma Arranged(rows: seq<Row>) returns (ordered: seq<Row>)
    requires AllProcesses(rows)
    ensures Arranges(ordered, rows)
  {
    ordered := [];
    while |ordered| < 6
      invariant |ordered| <= 6 && forall p | 0 <= p < |ordered| :: ordered[p] in rows && ordered[p].process == p
    {
      assert HasProcess(rows, |ordered|);
      var i :| 0 <= i < |rows| && rows[i].process == |ordered|;
      ordered := ordered + [rows[i]];
    }
    NoTwice(ordered);
    forall x ensures multiset(ordered)[x] <= multiset(rows)[x] {
      if x in ordered {
        assert x in multiset(rows);
      }
    }
    SameSize(multiset(ordered), multiset(rows));
  }

  lemma {:induction false} NoTwice(s: seq<Row>)
    requires forall i, j | 0 <= i < j < |s| :: s[i].process != s[j].process
    ensures forall x :: multiset(s)[x] <= if x in s then 1 else 0
  {
    if s != [] {
      var front, last := s[..|s| - 1], s[|s| - 1];
      NoTwice(front);
      assert s == front + [last] && last !in front;
    }
  }

  lemma SameSize(a: multiset<Row>, b: multiset<Row>)
    requires a <= b && |a| == |b|
    ensures a == b
  {
    assert b == a + (b - a) && |b - a| == 0;
  }

  /** The bias of a control and the benefit of a comparison, as differences of medians. */
  lemma DifferencesAre(base: seq<Row>, other: seq<Row>, allowance: int)
    requires base != [] && other != []
    ensures !Biased(base, other, allowance) <==> Near(Values(base), Values(other), allowance)
    ensures Benefits(Values(base), Values(other), allowance) <==>
            Middle(Values(base)) - Middle(Values(other)) > allowance as real
  {
    hide MedianTwice, Median, Values;
    ApartIs(Values(base), Values(other), Values(base), Values(other), allowance);
    MedianTwiceIsExact(Values(base));
    MedianTwiceIsExact(Values(other));
    assert (2 * allowance) as real == 2.0 * allowance as real;
  }

  // ----- the schedule ---------------------------------------------------------------------------

  /** The number of tasks of each mode in both protocols. */
  lemma ScheduleSizes(mode: Mode, first: bool, n: nat)
    ensures |RolesOf(mode, first)| * (1 + ProcessesOf(mode, first) * n) ==
            match mode
            case SmokeMode => 1 + n
            case CalibrationMode => if first then 1 + 5 * n else 1 + 6 * n
            case ControlMode => if first then 1 + 5 * n else 2 + 12 * n
            case ComparisonMode => if first then 2 + 10 * n else 2 + 12 * n
  {
  }

  /** The roles of each mode: a baseline alone, with its control from the second protocol on, or with a candidate. */
  predicate Takes(mode: Mode, first: bool, role: Role) {
    match role
    case Baseline => true
    case Control => mode.ControlMode? && !first
    case Candidate => mode.ComparisonMode?
  }

  lemma RolesAre(mode: Mode, first: bool, role: Role)
    ensures role in RolesOf(mode, first) <==> Takes(mode, first, role)
    ensures RolesOf(mode, first)[0] == Baseline
  {
  }

  /** Every workload runs every process of every role exactly at one place of the schedule. */
  lemma EveryTaskScheduled(mode: Mode, first: bool, selected: seq<string>, w: nat, process: nat, r: nat)
    requires w < |selected| && process < ProcessesOf(mode, first) && r < |RolesOf(mode, first)|
    ensures var roles := |RolesOf(mode, first)|;
            var position := if !first && process % 2 == 1 then roles - 1 - r else r;
            var i := roles * (1 + ProcessesOf(mode, first) * w + process) + position;
            && i < roles * (1 + ProcessesOf(mode, first) * |selected|)
            && TaskAt(mode, first, selected, i) ==
               Run(i, RolesOf(mode, first)[r], selected[w], process, if first then None else Some(position))
  {
    hide TaskAt, RolesOf, ProcessesOf;
    var roles := |RolesOf(mode, first)|;
    TaskPlaced(mode, first, selected, w, process, if !first && process % 2 == 1 then roles - 1 - r else r);
  }

  lemma EveryPreflightScheduled(mode: Mode, first: bool, selected: seq<string>, r: nat)
    requires r < |RolesOf(mode, first)|
    ensures r < |RolesOf(mode, first)| * (1 + ProcessesOf(mode, first) * |selected|)
    ensures TaskAt(mode, first, selected, r) == Preflight(r, RolesOf(mode, first)[r])
  {
    AllPlaced(|RolesOf(mode, first)|, ProcessesOf(mode, first), |selected|);
  }
}
