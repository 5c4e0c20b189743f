/**
 Protocol-four budgets of one wall-time metric in exact nanoseconds (`median_twice`, `schedule`, `derive_envelopes`,
 `control_evidence` and `compare_evidence` of template-matching-efficiency.py).
 */
module WallBudgets {
  import opened Wrappers
  import opened OrderStatistics

  // ----- integer medians ------------------------------------------------------------------------

  function Reals(values: seq<int>): (r: seq<real>)
    ensures |r| == |values|
  {
    seq(|values|, i requires 0 <= i < |values| => values[i] as real)
  }

  /** `sorted(values)` of integers. */
  function Sorted(values: seq<int>): (r: seq<int>)
    ensures |r| == |values|
  {
    seq(|values|, k requires 0 <= k < |values| => Kth(Reals(values), k).Floor)
  }

  lemma SortedIs(values: seq<int>, k: nat)
    requires k < |values|
    ensures Sorted(values)[k] as real == Kth(Reals(values), k)
  {
    KthIsValue(Reals(values), k);
    var i :| 0 <= i < |values| && Reals(values)[i] == Kth(Reals(values), k);
  }

  /** `median_twice`. */
  function MedianTwice(values: seq<int>): int
    requires values != []
  {
    var ordered, middle := Sorted(values), |values| / 2;
    if |values| % 2 == 1 then 2 * ordered[middle] else ordered[middle - 1] + ordered[middle]
  }

  /** Twice the median, exactly, also where the median is not an integer. */
  lemma MedianTwiceIsExact(values: seq<int>)
    requires values != []
    ensures MedianTwice(values) as real == 2.0 * Median(Reals(values))
  {
    SortedIs(values, |values| / 2);
    if |values| % 2 == 0 {
      SortedIs(values, |values| / 2 - 1);
    }
  }

  function Largest(values: seq<int>): int
    requires values != []
  {
    Sorted(values)[|values| - 1]
  }

  function Smallest(values: seq<int>): int
    requires values != []
  {
    Sorted(values)[0]
  }

  function Spread(values: seq<int>): int
    requires values != []
  {
    Largest(values) - Smallest(values)
  }

  lemma WithinExtremes(values: seq<int>, i: nat)
    requires i < |values|
    ensures Smallest(values) <= values[i] <= Largest(values)
  {
    ValueBetween(Reals(values), i);
    SortedIs(values, 0);
    SortedIs(values, |values| - 1);
  }

  lemma SpreadNonNegative(values: seq<int>)
    requires values != []
    ensures Spread(values) >= 0
  {
    WithinExtremes(values, 0);
  }

  lemma {:induction false} RealCount(a: seq<int>, x: real)
    ensures multiset(Reals(a))[x] == if x.Floor as real == x then multiset(a)[x.Floor] else 0
  {
    if a != [] {
      var front, last := a[..|a| - 1], a[|a| - 1];
      RealCount(front, x);
      assert a == front + [last] && Reals(a) == Reals(front) + [last as real];
    }
  }

  lemma RealsPermutation(a: seq<int>, b: seq<int>)
    requires multiset(a) == multiset(b)
    ensures multiset(Reals(a)) == multiset(Reals(b))
  {
    forall x ensures multiset(Reals(a))[x] == multiset(Reals(b))[x] {
      RealCount(a, x);
      RealCount(b, x);
    }
  }

  /** The order of the observations does not matter. */
  lemma SamePermutation(a: seq<int>, b: seq<int>)
    requires multiset(a) == multiset(b)
    ensures Sorted(a) == Sorted(b)
  {
    RealsPermutation(a, b);
    assert |a| == |multiset(a)| == |multiset(b)| == |b|;
    forall k | 0 <= k < |a| ensures Sorted(a)[k] == Sorted(b)[k] {
      KthPermutation(Reals(a), Reals(b), k);
    }
  }

  // ----- calibration ----------------------------------------------------------------------------

  /** The frozen limits of one metric. */
  datatype Budget = Budget(limit: int, empirical: int, control: int, clock: int)

  datatype Refusal = SixProcesses | NoisyCalibration

  function Max(a: int, b: int): int {
    if a < b then b else a
  }

  predicate Noisy(values: seq<int>, clock: int)
    requires values != [] && clock > 0
  {
    var scale := if Median(Reals(values)) < (2 * clock) as real then (2 * clock) as real else Median(Reals(values));
    Spread(values) as real / scale > 0.15
  }

  /** `derive_envelopes` for a wall metric. */
  function Derive(values: seq<int>, clocks: seq<int>): Result<Budget, Refusal>
    requires |values| == |clocks| && forall i | 0 <= i < |clocks| :: clocks[i] >= 1
  {
    if |values| != 6 then Refused(SixProcesses)
    else
      ClockPositive(clocks);
      var clock := Largest(clocks);
      if Noisy(values, clock) then Refused(NoisyCalibration)
      else
        var empirical := Max(Spread(values), 2 * clock);
        var numerator, denominator := MedianTwice(values) * 15, 2 * 100;
        var control := Max(empirical, (numerator + denominator - 1) / denominator);
        Ok(Budget(Largest(values) + empirical, empirical, control, clock))
  }

  lemma ClockPositive(clocks: seq<int>)
    requires clocks != [] && forall i | 0 <= i < |clocks| :: clocks[i] >= 1
    ensures Largest(clocks) >= 1
  {
    WithinExtremes(clocks, 0);
  }

  predicate CoversMedian(c: int, values: seq<int>)
    requires values != []
  {
    c as real >= 0.15 * Median(Reals(values))
  }

  /** The control allowance is the least integer that covers the empirical one and 15% of the calibration median. */
  lemma ControlAllowanceIsLeast(values: seq<int>, clocks: seq<int>)
    requires |values| == |clocks| && forall i | 0 <= i < |clocks| :: clocks[i] >= 1
    requires Derive(values, clocks).Ok?
    ensures var b := Derive(values, clocks).value;
            forall c :: c >= b.control <==> c >= b.empirical && CoversMedian(c, values)
    ensures var b := Derive(values, clocks).value;
            b.empirical >= Spread(values) >= 0 && b.empirical >= 2 * b.clock > 0
  {
    hide Sorted, Median, Noisy;
    ClockPositive(clocks);
    SpreadNonNegative(values);
    MedianTwiceIsExact(values);
    hide MedianTwice;
    var m := MedianTwice(values);
    forall c ensures c >= (m * 15 + 199) / 200 <==> CoversMedian(c, values) {
      assert c >= (m * 15 + 199) / 200 <==> 200 * c >= 15 * m;
      assert (200 * c) as real == 200.0 * c as real && (15 * m) as real == 15.0 * m as real;
    }
  }

  // ----- cohorts --------------------------------------------------------------------------------

  datatype Role = Baseline | Control | Candidate

  /** One process of a cohort. */
  datatype Row = Row(process: nat, position: nat, value: int)

  datatype Mode = SmokeMode | CalibrationMode | ControlMode | ComparisonMode

  /** A scheduled process; `position` is present from the second protocol on. */
  datatype Task =
    | Preflight(id: nat, role: Role)
    | Run(id: nat, role: Role, workload: string, process: nat, position: Option<nat>)

  function RolesOf(mode: Mode, first: bool): (roles: seq<Role>)
    ensures 1 <= |roles| <= 2
  {
    if mode.ComparisonMode? then [Baseline, Candidate]
    else if mode.ControlMode? && !first then [Baseline, Control] else [Baseline]
  }

  /** The processes of a workload; `first` tells the first protocol. */
  function ProcessesOf(mode: Mode, first: bool): nat {
    if mode.SmokeMode? then 1 else if first then 5 else 6
  }

  /** The position that a role has in a process. */
  function PositionOf(role: Role, process: nat): nat {
    if role.Baseline? then process % 2 else 1 - process % 2
  }

  function Reversed(roles: seq<Role>): (r: seq<Role>)
    ensures |r| == |roles|
  {
    seq(|roles|, i requires 0 <= i < |roles| => roles[|roles| - 1 - i])
  }

  /** Task `i`: a runtime task per role, then per workload the processes in order, each with every role. */
  function TaskAt(mode: Mode, first: bool, selected: seq<string>, i: nat): Task
    requires i < |RolesOf(mode, first)| * (1 + ProcessesOf(mode, first) * |selected|)
  {
    var roles, processes := RolesOf(mode, first), ProcessesOf(mode, first);
    if i < |roles| then Preflight(i, roles[i])
    else
      var position, round := (i - |roles|) % |roles|, (i - |roles|) / |roles|;
      var process, workload := round % processes, round / processes;
      RoundWithin(|roles|, processes, |selected|, i);
      Run(i, (if !first && process % 2 == 1 then Reversed(roles) else roles)[position], selected[workload], process,
          if first then None else Some(position))
  }

  lemma RoundWithin(roles: nat, processes: nat, workloads: nat, i: nat)
    requires (roles == 1 || roles == 2) && (processes == 1 || processes == 5 || processes == 6)
    requires roles <= i < roles * (1 + processes * workloads)
    ensures (i - roles) / roles / processes < workloads
  {
  }

  /** The number of tasks before the `process`-th process of the `w`-th workload. */
  function Before(roles: nat, processes: nat, w: nat, process: nat): nat {
    roles * (1 + processes * w + process)
  }

  lemma BeforeNext(roles: nat, processes: nat, w: nat, process: nat)
    ensures Before(roles, processes, w, process + 1) == Before(roles, processes, w, process) + roles
    ensures Before(roles, processes, w, processes) == Before(roles, processes, w + 1, 0)
    ensures Before(roles, processes, 0, 0) == roles
  {
  }

  lemma SmallDigits(a: nat, b: nat)
    ensures b < 2 ==> (2 * a + b) % 2 == b && (2 * a + b) / 2 == a
    ensures b < 5 ==> (5 * a + b) % 5 == b && (5 * a + b) / 5 == a
    ensures b < 6 ==> (6 * a + b) % 6 == b && (6 * a + b) / 6 == a
  {
  }

  lemma Digits(n: nat, a: nat, b: nat)
    requires n in {1, 2, 5, 6} && b < n
    ensures (n * a + b) % n == b && (n * a + b) / n == a
  {
    SmallDigits(a, b);
    if n == 1 {
      assert n * a + b == a && a % 1 == 0 && a / 1 == a;
    } else if n == 2 {
      assert n * a + b == 2 * a + b;
    } else if n == 5 {
      assert n * a + b == 5 * a + b;
    } else {
      assert n * a + b == 6 * a + b;
    }
  }

  /** The place of a task gives back its workload, process and position. */
  lemma Place(roles: nat, processes: nat, workloads: nat, w: nat, process: nat, position: nat)
    requires roles in {1, 2} && processes in {1, 5, 6}
    requires w < workloads && process < processes && position < roles
    ensures var k := Before(roles, processes, w, process) + position - roles;
            && 0 <= k && roles + k < roles * (1 + processes * workloads) && k % roles == position
            && k / roles % processes == process && k / roles / processes == w
  {
    var round := processes * w + process;
    assert Before(roles, processes, w, process) == roles * round + roles;
    Digits(roles, round, position);
    Digits(processes, w, process);
    assert round < processes * workloads by {
      assert processes * workloads == processes * (w + 1) + processes * (workloads - w - 1);
      assert processes * (w + 1) == processes * w + processes;
      assert processes * (workloads - w - 1) >= 0;
    }
    LastRound(roles, round, processes * workloads, position);
  }

  lemma LastRound(roles: nat, round: nat, rounds: nat, position: nat)
    requires roles in {1, 2} && round < rounds && position < roles
    ensures roles * round + roles + position < roles * (1 + rounds)
  {
  }

  lemma TaskPlaced(mode: Mode, first: bool, selected: seq<string>, w: nat, process: nat, position: nat)
    requires w < |selected| && process < ProcessesOf(mode, first) && position < |RolesOf(mode, first)|
    ensures var roles := RolesOf(mode, first);
            var i := Before(|roles|, ProcessesOf(mode, first), w, process) + position;
            && i < |roles| * (1 + ProcessesOf(mode, first) * |selected|)
            && TaskAt(mode, first, selected, i) ==
               Run(i, (if !first && process % 2 == 1 then Reversed(roles) else roles)[position], selected[w], process,
                   if first then None else Some(position))
  {
    hide Before;
    Place(|RolesOf(mode, first)|, ProcessesOf(mode, first), |selected|, w, process, position);
  }

  /** The roles of one process, in its order. */
  method AddProcess(tasks: seq<Task>, mode: Mode, first: bool, selected: seq<string>, w: nat, process: nat)
    returns (more: seq<Task>)
    requires w < |selected| && process < ProcessesOf(mode, first) && Scheduled(mode, first, selected, tasks)
    requires |tasks| == Before(|RolesOf(mode, first)|, ProcessesOf(mode, first), w, process)
    ensures |more| == |tasks| + |RolesOf(mode, first)| && Scheduled(mode, first, selected, more)
  {
    hide Before, TaskAt, ProcessesOf;
    var roles := RolesOf(mode, first);
    var order := if !first && process % 2 == 1 then Reversed(roles) else roles;
    hide RolesOf, Reversed;
    more := tasks;
    for position := 0 to |order|
      invariant |more| == |tasks| + position && Scheduled(mode, first, selected, more)
    {
      TaskPlaced(mode, first, selected, w, process, position);
      more := more + [Run(|more|, order[position], selected[w], process, if first then None else Some(position))];
    }
  }

  /** `schedule`. */
  method Schedule(mode: Mode, first: bool, selected: seq<string>) returns (tasks: seq<Task>)
    ensures |tasks| == |RolesOf(mode, first)| * (1 + ProcessesOf(mode, first) * |selected|)
    ensures forall i | 0 <= i < |tasks| :: tasks[i] == TaskAt(mode, first, selected, i)
  {
    hide Before, TaskAt, RolesOf, ProcessesOf;
    var roles, processes := RolesOf(mode, first), ProcessesOf(mode, first);
    tasks := [];
    for i := 0 to |roles|
      invariant |tasks| == i && forall j | 0 <= j < i :: tasks[j] == Preflight(j, roles[j])
    {
      tasks := tasks + [Preflight(i, roles[i])];
    }
    FirstTasks(mode, first, selected, tasks);
    BeforeNext(|roles|, processes, 0, 0);
    for w := 0 to |selected|
      invariant |tasks| == Before(|roles|, processes, w, 0) && Scheduled(mode, first, selected, tasks)
    {
      for process := 0 to processes
        invariant |tasks| == Before(|roles|, processes, w, process) && Scheduled(mode, first, selected, tasks)
      {
        tasks := AddProcess(tasks, mode, first, selected, w, process);
        BeforeNext(|roles|, processes, w, process);
      }
      BeforeNext(|roles|, processes, w, 0);
    }
    AllPlaced(|roles|, processes, |selected|);
  }

  /** The first tasks of a schedule. */
  predicate Scheduled(mode: Mode, first: bool, selected: seq<string>, tasks: seq<Task>) {
    && |tasks| <= |RolesOf(mode, first)| * (1 + ProcessesOf(mode, first) * |selected|)
    && forall i | 0 <= i < |tasks| :: tasks[i] == TaskAt(mode, first, selected, i)
  }

  lemma FirstTasks(mode: Mode, first: bool, selected: seq<string>, tasks: seq<Task>)
    requires |tasks| == |RolesOf(mode, first)|
    requires forall j | 0 <= j < |tasks| :: tasks[j] == Preflight(j, RolesOf(mode, first)[j])
    ensures Scheduled(mode, first, selected, tasks)
  {
    hide RolesOf, Reversed;
    AllPlaced(|RolesOf(mode, first)|, ProcessesOf(mode, first), |selected|);
  }

  lemma AllPlaced(roles: nat, processes: nat, workloads: nat)
    ensures Before(roles, processes, workloads, 0) == roles * (1 + processes * workloads)
    ensures roles <= roles * (1 + processes * workloads)
  {
    assert processes * workloads >= 0;
    assert roles * (1 + processes * workloads) == roles + roles * (processes * workloads);
  }

  predicate AllProcesses(rows: seq<Row>) {
    |rows| == 6 && forall p: nat | p < 6 :: HasProcess(rows, p)
  }

  /** Six processes in any order, each in its scheduled position. */
  predicate Complete(rows: seq<Row>, role: Role) {
    && AllProcesses(rows)
    && (forall i | 0 <= i < |rows| :: rows[i].position == PositionOf(role, rows[i].process))
  }

  predicate HasProcess(rows: seq<Row>, p: nat) {
    exists i | 0 <= i < |rows| :: rows[i].process == p
  }

  function Values(rows: seq<Row>): (r: seq<int>)
    ensures |r| == |rows|
  {
    seq(|rows|, i requires 0 <= i < |rows| => rows[i].value)
  }

  /** The values of the rows that start at a position, or whose process is in the first half. */
  function AtPosition(rows: seq<Row>, position: nat): seq<int> {
    if rows == [] then []
    else AtPosition(rows[..|rows| - 1], position)
         + if rows[|rows| - 1].position == position then [rows[|rows| - 1].value] else []
  }

  function InHalf(rows: seq<Row>, first: bool): seq<int> {
    if rows == [] then []
    else InHalf(rows[..|rows| - 1], first)
         + if (rows[|rows| - 1].process < 3) == first then [rows[|rows| - 1].value] else []
  }

  function Abs(x: int): nat {
    if x < 0 then -x else x
  }

  lemma {:induction false} PartsOf(rows: seq<Row>, position: nat, first: bool)
    ensures forall v | v in AtPosition(rows, position) || v in InHalf(rows, first) :: v in Values(rows)
    ensures forall i | 0 <= i < |rows| && rows[i].position == position :: AtPosition(rows, position) != []
    ensures forall i | 0 <= i < |rows| && (rows[i].process < 3) == first :: InHalf(rows, first) != []
  {
    if rows != [] {
      var front := rows[..|rows| - 1];
      PartsOf(front, position, first);
      assert Values(rows) == Values(front) + [rows[|rows| - 1].value];
      assert forall i | 0 <= i < |front| :: rows[i] == front[i];
    }
  }

  predicate OrderFails(rows: seq<Row>, allowance: int) {
    && AtPosition(rows, 0) != [] && AtPosition(rows, 1) != []
    && Abs(MedianTwice(AtPosition(rows, 0)) - MedianTwice(AtPosition(rows, 1))) > 2 * allowance
  }

  predicate DriftFails(rows: seq<Row>, allowance: int) {
    && InHalf(rows, true) != [] && InHalf(rows, false) != []
    && Abs(MedianTwice(InHalf(rows, true)) - MedianTwice(InHalf(rows, false))) > 2 * allowance
  }

  /** A median of some of the values lies between all of them. */
  lemma PartWithin(part: seq<int>, values: seq<int>)
    requires part != [] && forall v | v in part :: v in values
    ensures values != [] && 2 * Smallest(values) <= MedianTwice(part) <= 2 * Largest(values)
  {
    hide MedianTwice, Smallest, Largest;
    assert part[0] in part;
    MedianTwiceIsExact(part);
    forall i | 0 <= i < |part| ensures Smallest(values) as real <= Reals(part)[i] <= Largest(values) as real {
      assert part[i] in part;
      var j :| 0 <= j < |values| && values[j] == part[i];
      WithinExtremes(values, j);
    }
    MedianBetween(Reals(part), Smallest(values) as real, Largest(values) as real);
  }

  lemma PartsWithin(a: seq<int>, b: seq<int>, values: seq<int>, allowance: int)
    requires a != [] && b != [] && values != [] && Spread(values) <= allowance
    requires forall v | v in a || v in b :: v in values
    ensures Abs(MedianTwice(a) - MedianTwice(b)) <= 2 * allowance
  {
    hide MedianTwice, Smallest, Largest;
    PartWithin(a, values);
    PartWithin(b, values);
  }

  /** A role whose spread is within the allowance fails neither order nor drift, complete or not. */
  lemma QuietRoleKeepsOrder(rows: seq<Row>, allowance: int)
    requires rows != [] && Spread(Values(rows)) <= allowance
    ensures !OrderFails(rows, allowance) && !DriftFails(rows, allowance)
  {
    hide MedianTwice, Spread, AtPosition, InHalf;
    PartsOf(rows, 0, true);
    PartsOf(rows, 1, false);
    if AtPosition(rows, 0) != [] && AtPosition(rows, 1) != [] {
      PartsWithin(AtPosition(rows, 0), AtPosition(rows, 1), Values(rows), allowance);
    }
    if InHalf(rows, true) != [] && InHalf(rows, false) != [] {
      PartsWithin(InHalf(rows, true), InHalf(rows, false), Values(rows), allowance);
    }
  }

  // ----- grading --------------------------------------------------------------------------------

  datatype Issue =
    | Incomplete(role: Role)
    | AboveLimit(role: Role, process: nat)
    | NoiseOf(role: Role) | OrderOf(role: Role) | DriftOf(role: Role)
    | Bias
    | IncompleteCohorts | NoBenefit

  predicate BelowLimit(rows: seq<Row>, limit: int) {
    forall i | 0 <= i < |rows| :: rows[i].value <= limit
  }

  predicate RolePasses(rows: seq<Row>, role: Role, budget: Budget)
    requires budget.clock > 0
  {
    && Complete(rows, role) && BelowLimit(rows, budget.limit) && !Noisy(Values(rows), budget.clock)
    && !OrderFails(rows, budget.control) && !DriftFails(rows, budget.control)
  }

  /** One role of `control_evidence`. */
  method ControlRole(rows: seq<Row>, role: Role, budget: Budget) returns (issues: seq<Issue>)
    requires budget.clock > 0
    ensures issues == [] <==> RolePasses(rows, role, budget)
  {
    hide Noisy, OrderFails, DriftFails, Complete;
    issues := [];
    var complete := Complete(rows, role);
    if !complete {
      issues := issues + [Incomplete(role)];
    }
    for i := 0 to |rows|
      invariant issues == [] <==> complete && forall k | 0 <= k < i :: rows[k].value <= budget.limit
    {
      if rows[i].value > budget.limit {
        issues := issues + [AboveLimit(role, rows[i].process)];
      }
    }
    if complete {
      CompleteRows(rows, role);
      if Noisy(Values(rows), budget.clock) {
        issues := issues + [NoiseOf(role)];
      }
      if OrderFails(rows, budget.control) {
        issues := issues + [OrderOf(role)];
      }
      if DriftFails(rows, budget.control) {
        issues := issues + [DriftOf(role)];
      }
    }
  }

  lemma CompleteRows(rows: seq<Row>, role: Role)
    requires Complete(rows, role)
    ensures |rows| == 6
  {
  }

  predicate Biased(base: seq<Row>, other: seq<Row>, allowance: int) {
    base != [] && other != [] && Abs(MedianTwice(Values(base)) - MedianTwice(Values(other))) > 2 * allowance
  }

  /** `control_evidence` for one wall metric. */
  method ControlEvidence(base: seq<Row>, other: seq<Row>, budget: Budget) returns (issues: seq<Issue>)
    requires budget.clock > 0
    ensures issues == [] <==> && RolePasses(base, Baseline, budget) && RolePasses(other, Control, budget)
                              && !Biased(base, other, budget.control)
  {
    hide RolePasses, Biased;
    var first := ControlRole(base, Baseline, budget);
    var second := ControlRole(other, Control, budget);
    issues := first + second;
    if Complete(base, Baseline) && Complete(other, Control) && Biased(base, other, budget.control) {
      issues := issues + [Bias];
    }
    PassesComplete(base, Baseline, budget);
    PassesComplete(other, Control, budget);
  }

  lemma PassesComplete(rows: seq<Row>, role: Role, budget: Budget)
    requires budget.clock > 0
    ensures RolePasses(rows, role, budget) ==> Complete(rows, role)
  {
  }

  lemma RepeatPasses(values: seq<int>, clocks: seq<int>, rows: seq<Row>, role: Role)
    requires |values| == |clocks| && (forall i | 0 <= i < |clocks| :: clocks[i] >= 1) && Derive(values, clocks).Ok?
    requires Complete(rows, role) && multiset(Values(rows)) == multiset(values)
    ensures Derive(values, clocks).value.clock > 0 && RolePasses(rows, role, Derive(values, clocks).value)
  {
    var budget := Derive(values, clocks).value;
    ControlAllowanceIsLeast(values, clocks);
    assert budget.control >= budget.empirical >= Spread(values);
    SamePermutation(Values(rows), values);
    SameMedian(Values(rows), values);
    assert Spread(Values(rows)) == Spread(values);
    QuietRoleKeepsOrder(rows, budget.control);
    hide Sorted, Complete, OrderFails, DriftFails, MedianTwice;
    forall i | 0 <= i < |rows| ensures rows[i].value <= budget.limit {
      WithinExtremes(Values(rows), i);
    }
  }

  lemma SameMedian(a: seq<int>, b: seq<int>)
    requires multiset(a) == multiset(b) && a != []
    ensures b != [] && Median(Reals(a)) == Median(Reals(b)) && MedianTwice(a) == MedianTwice(b)
  {
    SamePermutation(a, b);
    assert |a| == |multiset(a)| == |multiset(b)| == |b|;
    MedianTwiceIsExact(a);
    MedianTwiceIsExact(b);
  }

  /** A control whose two roles repeat the calibration, in any order of processes, has no issue. */
  lemma CalibrationPassesControl(values: seq<int>, clocks: seq<int>, base: seq<Row>, other: seq<Row>)
    requires |values| == |clocks| && (forall i | 0 <= i < |clocks| :: clocks[i] >= 1) && Derive(values, clocks).Ok?
    requires Complete(base, Baseline) && multiset(Values(base)) == multiset(values)
    requires Complete(other, Control) && multiset(Values(other)) == multiset(values)
    ensures var budget := Derive(values, clocks).value;
            && budget.clock > 0 && RolePasses(base, Baseline, budget) && RolePasses(other, Control, budget)
            && !Biased(base, other, budget.control)
  {
    RepeatPasses(values, clocks, base, Baseline);
    RepeatPasses(values, clocks, other, Control);
    SameMedian(Values(base), Values(other));
    ControlAllowanceIsLeast(values, clocks);
  }

  /** A role of a comparison that is quiet where it can be judged, and below its ceiling. */
  predicate QuietRole(rows: seq<Row>, budget: Budget) {
    BelowLimit(rows, budget.limit) && (AllProcesses(rows) ==> Spread(Values(rows)) <= budget.control)
  }

  /** One role of `compare_evidence`, complete or not: only its spread and its ceilings can fail. */
  method ComparisonRole(rows: seq<Row>, role: Role, budget: Budget) returns (issues: seq<Issue>)
    ensures issues == [] <==> QuietRole(rows, budget)
  {
    hide OrderFails, DriftFails, Spread, HasProcess;
    issues := [];
    if AllProcesses(rows) {
      if Spread(Values(rows)) > budget.control {
        issues := issues + [NoiseOf(role)];
      } else {
        QuietRoleKeepsOrder(rows, budget.control);
      }
      if Complete(rows, role) {
        if OrderFails(rows, budget.control) {
          issues := issues + [OrderOf(role)];
        }
        if DriftFails(rows, budget.control) {
          issues := issues + [DriftOf(role)];
        }
      }
    }
    ghost var quiet := AllProcesses(rows) ==> Spread(Values(rows)) <= budget.control;
    for i := 0 to |rows|
      invariant issues == [] <==> quiet && forall k | 0 <= k < i :: rows[k].value <= budget.limit
    {
      if rows[i].value > budget.limit {
        issues := issues + [AboveLimit(role, rows[i].process)];
      }
    }
  }

  /** `compare_evidence` for one wall metric; `improvement` tells whether the workload has to show a benefit. */
  method Comparison(base: seq<Row>, candidate: seq<Row>, budget: Budget, improvement: bool) returns (issues: seq<Issue>)
    ensures issues == [] <==>
            && Complete(base, Baseline) && Complete(candidate, Candidate)
            && BelowLimit(base, budget.limit) && Spread(Values(base)) <= budget.control
            && BelowLimit(candidate, budget.limit) && Spread(Values(candidate)) <= budget.control
            && (improvement ==> Benefits(Values(base), Values(candidate), budget.control))
  {
    hide Spread, HasProcess, BelowLimit, Benefits;
    var first := ComparisonRole(base, Baseline, budget);
    var second := ComparisonRole(candidate, Candidate, budget);
    issues := first + second;
    if !Complete(base, Baseline) || !Complete(candidate, Candidate) {
      issues := issues + [IncompleteCohorts];
    }
    if improvement && |base| == |candidate| == 6 && !Benefits(Values(base), Values(candidate), budget.control) {
      issues := issues + [NoBenefit];
    }
  }

  /** The exact benefit decision. */
  predicate Benefits(base: seq<int>, candidate: seq<int>, allowance: int)
    requires base != [] && candidate != []
  {
    MedianTwice(base) - MedianTwice(candidate) > 2 * allowance
  }

  /**
   A benefit exceeds 15% of the calibration median and the calibration spread, and no cohort passes in both
   directions.
   */
  lemma BenefitIsOneSided(values: seq<int>, clocks: seq<int>, base: seq<int>, candidate: seq<int>)
    requires |values| == |clocks| && (forall i | 0 <= i < |clocks| :: clocks[i] >= 1) && Derive(values, clocks).Ok?
    requires base != [] && candidate != [] && Benefits(base, candidate, Derive(values, clocks).value.control)
    ensures !Benefits(candidate, base, Derive(values, clocks).value.control)
    ensures Median(Reals(base)) - Median(Reals(candidate)) > 0.15 * Median(Reals(values))
    ensures Median(Reals(base)) - Median(Reals(candidate)) > Spread(values) as real
  {
    hide Sorted, Median;
    var control := Derive(values, clocks).value.control;
    ControlAllowanceIsLeast(values, clocks);
    assert control >= Spread(values) && CoversMedian(control, values);
    hide Derive;
    MedianTwiceIsExact(base);
    MedianTwiceIsExact(candidate);
    hide MedianTwice, Spread;
    assert (2 * control) as real == 2.0 * control as real;
  }
}
