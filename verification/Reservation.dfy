/** Whole-phase time reservation (`admission_room` and the block loop of `collect_steps`). */
module Reservation {
  import opened Stages

  const ADMISSION_SECONDS := 60.0
  const FINAL_RETENTION_SECONDS := 60.0

  /** The bound of `attempts` attempts: 90 seconds of primary work, 5 of cleanup and 10 of retention each. */
  function Bound(attempts: nat): real {
    attempts as real * 105.0
  }

  /** `admission_room`. */
  predicate AdmissionRoom(now: real, deadline: real, attempts: nat) {
    now + Bound(attempts) + FINAL_RETENTION_SECONDS <= deadline
  }

  /** The blocks of a stage, two attempts each but for a last odd one. */
  function Blocks(stage: Stage): nat {
    (Slots(stage) + 1) / 2
  }

  function BlockSize(stage: Stage, i: nat): nat {
    if 2 * i + 1 < Slots(stage) then 2 else if 2 * i < Slots(stage) then 1 else 0
  }

  /**
   A phase on the caller's clock, in seconds after its start: the end of the initial admission, the pause before each
   block, and the time each block takes.
   */
  datatype Timeline = Timeline(admission: real, pauses: seq<real>, work: seq<real>)

  function Total(s: seq<real>): real {
    if s == [] then 0.0 else Total(s[..|s| - 1]) + s[|s| - 1]
  }

  predicate Shaped(stage: Stage, t: Timeline) {
    && |t.pauses| == |t.work| == Blocks(stage) && t.admission >= 0.0
    && (forall i | 0 <= i < Blocks(stage) :: t.pauses[i] >= 0.0 && t.work[i] >= 0.0)
  }

  /** Every attempt of a block keeps its primary, cleanup and retention bounds. */
  predicate KeepsBounds(stage: Stage, t: Timeline)
    requires Shaped(stage, t)
  {
    forall i | 0 <= i < Blocks(stage) :: t.work[i] <= Bound(BlockSize(stage, i))
  }

  /** The moment block `i` asks for admission when all earlier blocks ran. */
  function StartOf(t: Timeline, i: nat): real
    requires i < |t.pauses| == |t.work|
  {
    t.admission + Total(t.pauses[..i + 1]) + Total(t.work[..i])
  }

  function Deadline(stage: Stage): real {
    TotalSeconds(stage) as real
  }

  predicate Admitted(stage: Stage, t: Timeline, i: nat)
    requires i < |t.pauses| == |t.work|
  {
    AdmissionRoom(StartOf(t, i), Deadline(stage), BlockSize(stage, i))
  }

  /** The time a stage leaves for pauses of the caller. */
  function Slack(stage: Stage): real {
    Deadline(stage) - ADMISSION_SECONDS - Bound(Slots(stage)) - FINAL_RETENTION_SECONDS
  }

  lemma AsksAt(stage: Stage, t: Timeline, i: nat)
    requires i < |t.pauses| == |t.work|
    ensures Admitted(stage, t, i) <==>
            AdmissionRoom(t.admission + Total(t.pauses[..i]) + t.pauses[i] + Total(t.work[..i]), Deadline(stage),
                          BlockSize(stage, i))
  {
    assert t.pauses[..i + 1][..i] == t.pauses[..i];
  }

  /** An admitted block that keeps its bounds ends before the final reservation. */
  lemma EndsInTime(stage: Stage, t: Timeline, i: nat)
    requires Shaped(stage, t) && i < Blocks(stage) && Admitted(stage, t, i)
    ensures KeepsBounds(stage, t) ==> StartOf(t, i) + t.work[i] <= Deadline(stage) - FINAL_RETENTION_SECONDS
  {
  }

  /** The block loop: it stops at the first block without room. */
  method Collect(stage: Stage, t: Timeline) returns (ran: nat, now: real)
    requires Shaped(stage, t)
    ensures ran <= Blocks(stage)
    ensures t.admission > ADMISSION_SECONDS ==> ran == 0
    ensures t.admission <= ADMISSION_SECONDS ==>
              && (forall i | 0 <= i < ran :: Admitted(stage, t, i))
              && (ran < Blocks(stage) ==> !Admitted(stage, t, ran))
    ensures KeepsBounds(stage, t) && ran > 0 ==> now <= Deadline(stage) - FINAL_RETENTION_SECONDS
  {
    hide KeepsBounds, AdmissionRoom, Admitted, Deadline, BlockSize, Slots;
    ran, now := 0, t.admission;
    if now > ADMISSION_SECONDS {
      return;
    }
    while ran < Blocks(stage)
      invariant ran <= Blocks(stage) && now == t.admission + Total(t.pauses[..ran]) + Total(t.work[..ran])
      invariant forall i | 0 <= i < ran :: Admitted(stage, t, i)
      invariant KeepsBounds(stage, t) && ran > 0 ==> now <= Deadline(stage) - FINAL_RETENTION_SECONDS
    {
      assert t.pauses[..ran + 1][..ran] == t.pauses[..ran] && t.work[..ran + 1][..ran] == t.work[..ran];
      var asked := now + t.pauses[ran];
      if !AdmissionRoom(asked, Deadline(stage), BlockSize(stage, ran)) {
        AsksAt(stage, t, ran);
        return;
      }
      AsksAt(stage, t, ran);
      EndsInTime(stage, t, ran);
      now := asked + t.work[ran];
      ran := ran + 1;
    }
  }

  lemma {:induction false} TotalPrefix(s: seq<real>, n: nat)
    requires n <= |s| && forall i | 0 <= i < |s| :: s[i] >= 0.0
    ensures 0.0 <= Total(s[..n]) <= Total(s)
    decreases |s|
  {
    if n < |s| {
      TotalPrefix(s[..|s| - 1], n);
      assert s[..|s| - 1][..n] == s[..n];
    } else {
      assert s[..n] == s;
      if n > 0 {
        TotalPrefix(s[..n - 1], n - 1);
      }
    }
  }

  /** The first `n` blocks hold at most two attempts each. */
  lemma {:induction false} WorkBound(stage: Stage, t: Timeline, n: nat)
    requires Shaped(stage, t) && KeepsBounds(stage, t) && n < Blocks(stage)
    ensures Total(t.work[..n]) <= Bound(2 * n)
    ensures 2 * n + BlockSize(stage, n) <= Slots(stage)
  {
    if n > 0 {
      WorkBound(stage, t, n - 1);
      assert t.work[..n][..n - 1] == t.work[..n - 1];
    }
  }

  /** A run that keeps its bounds and pauses no longer than the slack is never refused a block. */
  lemma NoBlockRefused(stage: Stage, t: Timeline, i: nat)
    requires Shaped(stage, t) && KeepsBounds(stage, t) && i < Blocks(stage)
    requires t.admission <= ADMISSION_SECONDS && Total(t.pauses) <= Slack(stage)
    ensures Admitted(stage, t, i)
  {
    hide Slots;
    TotalPrefix(t.pauses, i + 1);
    WorkBound(stage, t, i);
    var size := BlockSize(stage, i);
    assert (2 * i) as real + size as real <= Slots(stage) as real;
  }

  /** The slowest run that keeps its bounds. */
  predicate Slowest(stage: Stage, t: Timeline)
    requires Shaped(stage, t)
  {
    t.admission == ADMISSION_SECONDS
    && forall i | 0 <= i < Blocks(stage) :: t.work[i] == Bound(BlockSize(stage, i))
  }

  lemma {:induction false} FullBlocks(stage: Stage, t: Timeline, n: nat)
    requires Shaped(stage, t) && Slowest(stage, t) && n < Blocks(stage)
    ensures Total(t.work[..n]) == Bound(2 * n)
  {
    if n > 0 {
      FullBlocks(stage, t, n - 1);
      assert t.work[..n][..n - 1] == t.work[..n - 1];
    }
  }

  /** The slack is exact: the slowest run completes if and only if its pauses stay within it. */
  lemma SlackIsExact(stage: Stage, t: Timeline)
    requires Shaped(stage, t) && Slowest(stage, t)
    ensures (forall i | 0 <= i < Blocks(stage) :: Admitted(stage, t, i)) <==> Total(t.pauses) <= Slack(stage)
  {
    var last := Blocks(stage) - 1;
    FullBlocks(stage, t, last);
    assert t.pauses[..last + 1] == t.pauses;
    assert Slots(stage) == 2 * last + BlockSize(stage, last);
    assert Admitted(stage, t, last) <==> Total(t.pauses) <= Slack(stage);
    if Total(t.pauses) <= Slack(stage) {
      forall i | 0 <= i < Blocks(stage) ensures Admitted(stage, t, i) {
        NoBlockRefused(stage, t, i);
      }
    }
  }

  /** The blocks of each stage hold its attempts, and leave so many seconds for pauses. */
  lemma StageReserves(stage: Stage)
    ensures match stage
            case Smoke => Blocks(stage) == 1 && Slack(stage) == 675.0
            case Calibration => Blocks(stage) == 3 && Slack(stage) == 150.0
            case Control => Blocks(stage) == 6 && Slack(stage) == 300.0
            case Comparison => Blocks(stage) == 6 && Slack(stage) == 300.0
    ensures forall i | 0 <= i < Blocks(stage) :: BlockSize(stage, i) == if stage.Smoke? then 1 else 2
  {
  }
}
