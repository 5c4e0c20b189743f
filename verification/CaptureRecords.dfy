/**
 What the record of a capture says about the run that led to it: each of its fields is decided by the actions of the
 main thread and by what the readers had done when the main thread asked.
 */
module CaptureRecords {
  import opened Wrappers
  import opened Bytes
  import opened CaptureProtocol

  /** The state in which action `i` of a run was taken. */
  ghost function Before(limit: nat, actions: seq<Action>, i: nat): (s: State)
    requires i <= |actions| && Run(limit, actions).Some?
    ensures |s.readers| == 2 && |s.shared.buffers| == 2
  {
    RunPrefix(limit, actions, i);
    Run(limit, actions[..i]).value
  }

  lemma {:induction false} RunPrefix(limit: nat, actions: seq<Action>, i: nat)
    requires i <= |actions| && Run(limit, actions).Some?
    ensures Run(limit, actions[..i]).Some?
    decreases |actions|
  {
    if i == |actions| {
      assert actions[..i] == actions;
    } else {
      RunPrefix(limit, actions[..|actions| - 1], i);
      assert actions[..|actions| - 1][..i] == actions[..i];
    }
  }

  // ----- what the main thread was told ----------------------------------------------------------

  /** More was handed over than the limit. */
  predicate Exceeded(limit: nat, s: State)
    requires |s.readers| == 2
  {
    |s.readers[0].absorbed| + |s.readers[1].absorbed| > limit
  }

  predicate Finished(s: State, i: nat)
    requires |s.readers| == 2 && i < 2
  {
    s.readers[i].pc.Dead?
  }

  /** The last test of the wait loop. */
  predicate LastTest(actions: seq<Action>, i: nat) {
    i < |actions| && actions[i].MainTest? && forall j | i < j < |actions| :: !actions[j].MainTest?
  }

  /** A limited exit is timed out by the clock, a drained one by the exit wait, and any other one always. */
  ghost predicate TestTimesOut(limit: nat, actions: seq<Action>, i: nat)
    requires Run(limit, actions).Some? && i < |actions| && actions[i].MainTest?
  {
    var s := Before(limit, actions, i);
    if Exceeded(limit, s) then actions[i].late
    else if Finished(s, 0) && Finished(s, 1) then !actions[i].exited else true
  }

  /** The tree was swept and reaped, and both ends were counted then. */
  ghost predicate EndsCounted(limit: nat, actions: seq<Action>)
    requires Run(limit, actions).Some?
  {
    exists i | 0 <= i < |actions| ::
      && actions[i] == MainReadEof(true)
      && Before(limit, actions, i).readers[0].counted && Before(limit, actions, i).readers[1].counted
  }

  ghost predicate FirstFinished(limit: nat, actions: seq<Action>)
    requires Run(limit, actions).Some?
  {
    exists i | 0 <= i < |actions| :: actions[i] == MainReadAlive && Finished(Before(limit, actions, i), 0)
  }

  /** The second reader was finished when it was asked, before the cleanup deadline. */
  ghost predicate SecondFinished(limit: nat, actions: seq<Action>)
    requires Run(limit, actions).Some?
  {
    exists i | 0 <= i < |actions| :: actions[i] == MainReadAliveBoth(true) && Finished(Before(limit, actions, i), 1)
  }

  ghost predicate LimitedIs(limit: nat, actions: seq<Action>, limited: bool)
    requires Run(limit, actions).Some?
  {
    exists i | 0 <= i < |actions| :: actions[i] == MainReadLimited && limited == Exceeded(limit, Before(limit, actions, i))
  }

  ghost predicate StdoutIs(limit: nat, actions: seq<Action>, stdout: seq<byte>)
    requires Run(limit, actions).Some?
  {
    exists i | 0 <= i < |actions| :: actions[i] == MainReadStdout && stdout == Before(limit, actions, i).shared.buffers[0]
  }

  ghost predicate StderrIs(limit: nat, actions: seq<Action>, stderr: seq<byte>)
    requires Run(limit, actions).Some?
  {
    exists i | 0 <= i < |actions| :: actions[i] == MainRecord && stderr == Before(limit, actions, i).shared.buffers[1]
  }

  ghost predicate TimedOutIs(limit: nat, actions: seq<Action>, timedOut: bool)
    requires Run(limit, actions).Some?
  {
    exists i: nat :: LastTest(actions, i) && timedOut == TestTimesOut(limit, actions, i)
  }

  // ----- one more action ------------------------------------------------------------------------

  lemma RunNext(limit: nat, actions: seq<Action>, a: Action)
    requires Run(limit, actions + [a]).Some?
    ensures Run(limit, actions).Some? && Apply(Run(limit, actions).value, a) == Run(limit, actions + [a])
    ensures Before(limit, actions + [a], |actions|) == Run(limit, actions).value
    ensures forall i | 0 <= i < |actions| :: Before(limit, actions + [a], i) == Before(limit, actions, i)
  {
    hide Apply;
    var more := actions + [a];
    assert more[..|more| - 1] == actions;
    forall i | 0 <= i < |actions| ensures Before(limit, more, i) == Before(limit, actions, i) {
      assert more[..i] == actions[..i];
    }
  }

  lemma VerdictsNext(limit: nat, actions: seq<Action>, a: Action)
    requires Run(limit, actions + [a]).Some?
    ensures Run(limit, actions).Some?
    ensures var s, more := Run(limit, actions).value, actions + [a];
            && (EndsCounted(limit, more) <==>
                  EndsCounted(limit, actions) || (a == MainReadEof(true) && s.readers[0].counted && s.readers[1].counted))
            && (FirstFinished(limit, more) <==> FirstFinished(limit, actions) || (a == MainReadAlive && Finished(s, 0)))
            && (SecondFinished(limit, more) <==>
                  SecondFinished(limit, actions) || (a == MainReadAliveBoth(true) && Finished(s, 1)))
  {
    hide Run, Before;
    RunNext(limit, actions, a);
    var more := actions + [a];
    assert more[|actions|] == a;
    forall i | 0 <= i < |actions| ensures more[i] == actions[i] {
    }
  }

  lemma ReadingsNext(limit: nat, actions: seq<Action>, a: Action)
    requires Run(limit, actions + [a]).Some?
    ensures Run(limit, actions).Some?
    ensures forall b | LimitedIs(limit, actions, b) :: LimitedIs(limit, actions + [a], b)
    ensures forall out | StdoutIs(limit, actions, out) :: StdoutIs(limit, actions + [a], out)
    ensures var s, more := Run(limit, actions).value, actions + [a];
            && (a == MainReadLimited ==> LimitedIs(limit, more, Exceeded(limit, s)))
            && (a == MainReadStdout ==> StdoutIs(limit, more, s.shared.buffers[0]))
            && (a == MainRecord ==> StderrIs(limit, more, s.shared.buffers[1]))
    ensures forall err | StderrIs(limit, actions, err) :: StderrIs(limit, actions + [a], err)
  {
    hide Run, Before;
    RunNext(limit, actions, a);
    var more := actions + [a];
    assert more[|actions|] == a;
    forall i | 0 <= i < |actions| ensures more[i] == actions[i] {
    }
  }

  lemma TestNext(limit: nat, actions: seq<Action>, a: Action)
    requires Run(limit, actions + [a]).Some?
    ensures Run(limit, actions).Some?
    ensures !a.MainTest? ==> forall b | TimedOutIs(limit, actions, b) :: TimedOutIs(limit, actions + [a], b)
    ensures var s := Run(limit, actions).value;
            a.MainTest? ==> TimedOutIs(limit, actions + [a], if Exceeded(limit, s) then a.late
                                                             else if Finished(s, 0) && Finished(s, 1) then !a.exited else true)
  {
    hide Run, Before;
    RunNext(limit, actions, a);
    var more := actions + [a];
    assert more[|actions|] == a;
    if a.MainTest? {
      assert LastTest(more, |actions|);
    } else {
      forall b | TimedOutIs(limit, actions, b) ensures TimedOutIs(limit, more, b) {
        var i: nat :| LastTest(actions, i) && b == TestTimesOut(limit, actions, i);
        assert LastTest(more, i) && more[i] == actions[i];
      }
    }
  }

  // ----- what the main thread knows -------------------------------------------------------------

  /** How far the evaluation of the record has come. */
  function Stage(m: Main): nat {
    match m
    case Testing => 0
    case Asleep => 0
    case Sweeping(_) => 1
    case Joining(_) => 2
    case ReadLimited(_, _) => 3
    case ReadEof(_, _, _) => 4
    case ReadAlive(_, _, _) => 5
    case ReadAliveBoth(_, _, _) => 6
    case ReadStdout(_, _, _, _) => 7
    case Recorded(_) => 8
  }

  ghost predicate ToldVerdict(limit: nat, actions: seq<Action>)
    requires Run(limit, actions).Some?
  {
    var m := Run(limit, actions).value.main;
    var ok, n := Knows(m).ok, Stage(m);
    && (n < 4 ==> !EndsCounted(limit, actions)) && (n < 5 ==> !FirstFinished(limit, actions))
    && (n < 6 ==> !SecondFinished(limit, actions))
    && (n == 4 ==> ok == Some(EndsCounted(limit, actions)))
    && (n == 5 ==> ok == Some(EndsCounted(limit, actions) && FirstFinished(limit, actions)))
    && (n >= 6 ==> ok == Some(EndsCounted(limit, actions) && FirstFinished(limit, actions) && SecondFinished(limit, actions)))
  }

  ghost predicate ToldReadings(limit: nat, actions: seq<Action>)
    requires Run(limit, actions).Some?
  {
    var m := Run(limit, actions).value.main;
    var k := Knows(m);
    && (k.timedOut.Some? ==> TimedOutIs(limit, actions, k.timedOut.value))
    && (k.outputLimited.Some? ==> LimitedIs(limit, actions, k.outputLimited.value))
    && (k.stdout.Some? ==> StdoutIs(limit, actions, k.stdout.value))
    && (m.Recorded? ==> StderrIs(limit, actions, m.record.stderr))
  }

  ghost predicate Told(limit: nat, actions: seq<Action>)
    requires Run(limit, actions).Some?
  {
    ToldVerdict(limit, actions) && ToldReadings(limit, actions)
  }

  /** The steps of the readers and of the child tell the main thread nothing. */
  lemma OthersTellNothing(s: State, a: Action, t: State)
    requires |s.readers| == 2 && |s.shared.buffers| == 2 && Apply(s, a) == Some(t)
    requires !a.MainTest? && !a.MainTimeout? && !a.MainStop? && !a.MainReadLimited? && !a.MainReadEof?
             && !a.MainReadAlive? && !a.MainReadAliveBoth? && !a.MainReadStdout? && !a.MainRecord?
    ensures Knows(t.main) == Knows(s.main) && Stage(t.main) == Stage(s.main)
    ensures t.main.Recorded? || s.main.Recorded? ==> t.main == s.main
  {
    hide Absorb;
  }

  /** A test leaves the loop with its verdict, or sleeps. */
  lemma TestTells(limit: nat, s: State, a: Action, t: State)
    requires Inv(limit, s) && a.MainTest? && Apply(s, a) == Some(t)
    ensures Stage(s.main) == 0 && Stage(t.main) <= 1
    ensures Stage(t.main) == 1 ==> Knows(t.main) == Known(Some(if Exceeded(limit, s) then a.late
                                                               else if Finished(s, 0) && Finished(s, 1) then !a.exited else true),
                                                          None, None, None)
    ensures Stage(t.main) == 0 ==> Knows(t.main) == Known(None, None, None, None)
  {
    hide ReaderOk, MainOk, RecordOk;
  }

  lemma SoFar(limit: nat, s: State)
    requires Inv(limit, s)
    ensures |s.readers| == 2 && |s.shared.buffers| == 2 && (s.shared.limited <==> Exceeded(limit, s))
    ensures s.shared.eofStreams == 2 <==> s.readers[0].counted && s.readers[1].counted
  {
  }

  lemma ToldNext(limit: nat, actions: seq<Action>, a: Action)
    requires Run(limit, actions + [a]).Some? && Run(limit, actions).Some? && Told(limit, actions)
    ensures Told(limit, actions + [a])
  {
    hide ToldVerdict, ToldReadings;
    VerdictNext(limit, actions, a);
    ReadingNext(limit, actions, a);
  }

  lemma VerdictNext(limit: nat, actions: seq<Action>, a: Action)
    requires Run(limit, actions + [a]).Some? && Run(limit, actions).Some? && ToldVerdict(limit, actions)
    ensures ToldVerdict(limit, actions + [a])
  {
    hide Run, EndsCounted, FirstFinished, SecondFinished, LimitedIs, StdoutIs, StderrIs, TimedOutIs, Before, Inv, ReaderStep,
         ChildStep, Exceeded;
    RunKeepsInv(limit, actions);
    RunNext(limit, actions, a);
    VerdictsNext(limit, actions, a);
    var s, t := Run(limit, actions).value, Run(limit, actions + [a]).value;
    SoFar(limit, s);
    if a.MainTest? {
      TestTells(limit, s, a, t);
    } else if Evaluates(a) {
      assert MainStep(s, a) == Some(t);
    } else {
      OthersTellNothing(s, a, t);
    }
  }

  lemma ReadingNext(limit: nat, actions: seq<Action>, a: Action)
    requires Run(limit, actions + [a]).Some? && Run(limit, actions).Some? && ToldReadings(limit, actions)
    ensures ToldReadings(limit, actions + [a])
  {
    hide Run, EndsCounted, FirstFinished, SecondFinished, LimitedIs, StdoutIs, StderrIs, TimedOutIs, Before, Inv, ReaderStep,
         ChildStep, Exceeded;
    RunKeepsInv(limit, actions);
    RunNext(limit, actions, a);
    ReadingsNext(limit, actions, a);
    TestNext(limit, actions, a);
    var s, t := Run(limit, actions).value, Run(limit, actions + [a]).value;
    SoFar(limit, s);
    if a.MainTest? {
      TestTells(limit, s, a, t);
    } else if Evaluates(a) {
      assert MainStep(s, a) == Some(t);
    } else {
      OthersTellNothing(s, a, t);
    }
  }

  predicate Evaluates(a: Action) {
    a.MainTimeout? || a.MainStop? || a.MainReadLimited? || a.MainReadEof? || a.MainReadAlive? || a.MainReadAliveBoth?
    || a.MainReadStdout? || a.MainRecord?
  }

  lemma {:induction false} RunIsTold(limit: nat, actions: seq<Action>)
    requires Run(limit, actions).Some?
    ensures Told(limit, actions)
  {
    if actions == [] {
      assert Run(limit, []) == Some(Start(limit));
    } else {
      var front, a := actions[..|actions| - 1], actions[|actions| - 1];
      assert front + [a] == actions;
      hide Told;
      RunNext(limit, front, a);
      RunIsTold(limit, front);
      ToldNext(limit, front, a);
    }
  }

  // ----- the record -----------------------------------------------------------------------------

  lemma RecordIsTold(limit: nat, actions: seq<Action>)
    requires Run(limit, actions).Some? && Run(limit, actions).value.main.Recorded?
    ensures var r := Run(limit, actions).value.main.record;
            && (r.cleanupOk <==>
                  EndsCounted(limit, actions) && FirstFinished(limit, actions) && SecondFinished(limit, actions))
            && TimedOutIs(limit, actions, r.timedOut) && LimitedIs(limit, actions, r.outputLimited)
            && StdoutIs(limit, actions, r.stdout) && StderrIs(limit, actions, r.stderr)
  {
    hide Run, EndsCounted, FirstFinished, SecondFinished, LimitedIs, StdoutIs, StderrIs, TimedOutIs, Before;
    RunIsTold(limit, actions);
  }

  /**
   `cleanup_ok` holds exactly when the tree was killed, stopped and reaped with both ends counted, and both readers had
   finished when they were asked, the second one before the cleanup deadline.
   */
  lemma CleanupOkExactly(limit: nat, actions: seq<Action>)
    requires Run(limit, actions).Some? && Run(limit, actions).value.main.Recorded?
    ensures Run(limit, actions).value.main.record.cleanupOk <==>
            EndsCounted(limit, actions) && FirstFinished(limit, actions) && SecondFinished(limit, actions)
  {
    hide Run, EndsCounted, FirstFinished, SecondFinished;
    RecordIsTold(limit, actions);
  }

  /**
   `timed_out` is decided by the last test of the wait loop: by the clock once the limit was exceeded, by the exit of the
   child once both readers had finished, and otherwise it is set.
   */
  lemma TimedOutExactly(limit: nat, actions: seq<Action>, i: nat)
    requires Run(limit, actions).Some? && Run(limit, actions).value.main.Recorded? && LastTest(actions, i)
    ensures Run(limit, actions).value.main.record.timedOut <==> TestTimesOut(limit, actions, i)
  {
    hide TestTimesOut, Run, EndsCounted, FirstFinished, SecondFinished, LimitedIs, StdoutIs, StderrIs, Before;
    RecordIsTold(limit, actions);
    var timedOut := Run(limit, actions).value.main.record.timedOut;
    assert TimedOutIs(limit, actions, timedOut);
    var j: nat :| LastTest(actions, j) && timedOut == TestTimesOut(limit, actions, j);
    assert i == j;
  }

  /** The main thread goes to sleep exactly before the deadline, within the limit, and with a reader still alive. */
  lemma SleepsExactly(limit: nat, actions: seq<Action>, late: bool, exited: bool)
    requires Run(limit, actions).Some? && Run(limit, actions).value.main.Testing?
    ensures var s, next := Run(limit, actions).value, Run(limit, actions + [MainTest(late, exited)]);
            && next.Some? && (next.value.main.Asleep? || next.value.main.Sweeping?)
            && (next.value.main.Asleep? <==> !late && !Exceeded(limit, s) && !(Finished(s, 0) && Finished(s, 1)))
  {
    RunKeepsInv(limit, actions);
    var s, a := Run(limit, actions).value, MainTest(late, exited);
    assert (actions + [a])[..|actions|] == actions;
    SleepsFrom(limit, s, late, exited);
  }

  lemma SleepsFrom(limit: nat, s: State, late: bool, exited: bool)
    requires Inv(limit, s) && s.main.Testing?
    ensures var next := Apply(s, MainTest(late, exited));
            && next.Some? && (next.value.main.Asleep? || next.value.main.Sweeping?)
            && (next.value.main.Asleep? <==> !late && !Exceeded(limit, s) && !(Finished(s, 0) && Finished(s, 1)))
  {
    hide ReaderOk, MainOk, RecordOk;
  }

  /** A record follows some test, and holds what its fields were when they were read. */
  lemma RecordReadings(limit: nat, actions: seq<Action>)
    requires Run(limit, actions).Some? && Run(limit, actions).value.main.Recorded?
    ensures exists i: nat :: LastTest(actions, i)
    ensures var r := Run(limit, actions).value.main.record;
            && LimitedIs(limit, actions, r.outputLimited) && StdoutIs(limit, actions, r.stdout)
            && StderrIs(limit, actions, r.stderr)
  {
    hide TestTimesOut, Run, EndsCounted, FirstFinished, SecondFinished, LimitedIs, StdoutIs, StderrIs, Before;
    RecordIsTold(limit, actions);
    assert TimedOutIs(limit, actions, Run(limit, actions).value.main.record.timedOut);
  }

  // ----- why a reader ends ----------------------------------------------------------------------

  /** The reader saw the end of its pipe, failed to read, or checked after the stop. */
  ghost predicate HasReason(limit: nat, actions: seq<Action>, r: nat)
    requires Run(limit, actions).Some? && r < 2
  {
    || Run(limit, actions).value.readers[r].counted
    || ReadFails(r) in actions
    || exists i | 0 <= i < |actions| :: actions[i] == CheckStop(r) && Before(limit, actions, i).stop
  }

  /** A reader leaves its loop for a reason only: an idle pipe alone never ends it. */
  lemma {:induction false} ReaderEndsForAReason(limit: nat, actions: seq<Action>, r: nat)
    requires Run(limit, actions).Some? && r < 2
    requires Run(limit, actions).value.readers[r].pc.Closing? || Run(limit, actions).value.readers[r].pc.Dead?
    ensures HasReason(limit, actions, r)
  {
    if actions != [] {
      var front, a := actions[..|actions| - 1], actions[|actions| - 1];
      assert front + [a] == actions && actions[|front|] == a;
      RunNext(limit, front, a);
      StepHasReason(Run(limit, front).value, a, Run(limit, actions).value, r);
      hide Run, Before;
      var was := Run(limit, front).value.readers[r];
      if was.pc.Closing? || was.pc.Dead? {
        ReaderEndsForAReason(limit, front, r);
        ReasonsNext(limit, front, a, r);
      }
    }
  }

  lemma StepHasReason(s: State, a: Action, t: State, r: nat)
    requires |s.readers| == 2 && |s.shared.buffers| == 2 && Apply(s, a) == Some(t) && r < 2
    requires t.readers[r].pc.Closing? || t.readers[r].pc.Dead?
    ensures s.readers[r].pc.Closing? || s.readers[r].pc.Dead? || t.readers[r].counted || a == ReadFails(r)
            || (a == CheckStop(r) && s.stop)
    ensures s.readers[r].counted ==> t.readers[r].counted
  {
    hide Absorb;
  }

  lemma ReasonsNext(limit: nat, actions: seq<Action>, a: Action, r: nat)
    requires Run(limit, actions + [a]).Some? && Run(limit, actions).Some? && r < 2 && HasReason(limit, actions, r)
    requires Run(limit, actions).value.readers[r].counted ==> Run(limit, actions + [a]).value.readers[r].counted
    ensures HasReason(limit, actions + [a], r)
  {
    hide Run, Before;
    RunNext(limit, actions, a);
    var more := actions + [a];
    if exists i | 0 <= i < |actions| :: actions[i] == CheckStop(r) && Before(limit, actions, i).stop {
      var i :| 0 <= i < |actions| && actions[i] == CheckStop(r) && Before(limit, actions, i).stop;
      assert more[i] == actions[i];
    }
  }
}
