/** What every run on one campaign directory keeps. */
module CampaignSafety {
  import opened Wrappers
  import opened CampaignDirectory
  import opened Stages
  import opened CampaignRuns
  import opened CampaignAdmission

  lemma EmptyInv()
    ensures Inv(Empty())
  {
  }

  lemma {:induction false} RunFromKeepsInv(s: State, actions: seq<Action>)
    requires Inv(s) && RunFrom(s, actions).Some?
    ensures Inv(RunFrom(s, actions).value)
  {
    hide Inv, Apply;
    if actions != [] {
      RunFromKeepsInv(s, actions[..|actions| - 1]);
      StepKeepsInv(RunFrom(s, actions[..|actions| - 1]).value, actions[|actions| - 1]);
    }
  }

  lemma RunKeepsInv(actions: seq<Action>)
    requires Run(actions).Some?
    ensures Inv(Run(actions).value)
  {
    hide Inv, RunFrom;
    EmptyInv();
    RunFromKeepsInv(Empty(), actions);
  }

  lemma {:induction false} RunFromJoin(s: State, before: seq<Action>, after: seq<Action>)
    ensures RunFrom(s, before + after) ==
            match RunFrom(s, before) case None => None case Some(t) => RunFrom(t, after)
  {
    hide Apply;
    if after == [] {
      assert before + after == before;
    } else {
      var last := |after| - 1;
      assert (before + after)[..|before + after| - 1] == before + after[..last];
      RunFromJoin(s, before, after[..last]);
    }
  }

  /** In every run, at most one live process holds the campaign. */
  lemma AtMostOneOwner(actions: seq<Action>, p: Pid, q: Pid)
    requires Run(actions).Some? && p in Run(actions).value.procs && q in Run(actions).value.procs
    requires var s := Run(actions).value;
             s.procs[p].owner && Live(s.procs[p]) && s.procs[q].owner && Live(s.procs[q])
    ensures p == q && Run(actions).value.dir.active == Some(p)
  {
    hide Run;
    RunKeepsInv(actions);
    OneLiveOwner(Run(actions).value, p, q);
  }

  /** In every run, a phase name launches from one process only, within its schedule. */
  lemma OneCohortPerPhase(actions: seq<Action>, p: Pid, q: Pid)
    requires Run(actions).Some? && p in Run(actions).value.procs && q in Run(actions).value.procs
    requires var s := Run(actions).value;
             s.procs[p].key == s.procs[q].key && s.procs[p].launches > 0 && s.procs[q].launches > 0
    ensures p == q && Run(actions).value.procs[p].launches <= Slots(Run(actions).value.procs[p].key.stage)
  {
    hide Run;
    RunKeepsInv(actions);
    var s := Run(actions).value;
    assert ProcOk(s.procs[p]) && ProcOk(s.procs[q]);
  }

  // ----- after a failure, nothing launches ----------------------------------------------------

  predicate HasBad(issues: set<Category>) {
    Identity in issues || Cleanup in issues
  }

  /** A registered phase that ended without a seal, or with an identity or cleanup issue. */
  predicate FailedPhase(s: State, p: Pid) {
    p in s.procs && s.procs[p].registered && Ended(s.procs[p])
    && (s.procs[p].key !in s.dir.seals || HasBad(s.procs[p].issues))
  }

  predicate FailedControl(s: State, p: Pid) {
    p in s.procs && s.procs[p].registered && Ended(s.procs[p]) && s.procs[p].key.stage.Control?
    && (s.procs[p].key !in s.dir.seals || s.procs[p].issues != {})
  }

  function LaunchesOf(s: State, q: Pid): nat {
    if q in s.procs then s.procs[q].launches else 0
  }

  predicate SameLaunches(s: State, t: State, q: Pid) {
    LaunchesOf(s, q) == LaunchesOf(t, q)
  }

  /** Launch counts change by `Launch` only, from an admitted process. */
  lemma LaunchNeedsAdmission(s: State, a: Action, q: Pid)
    requires Apply(s, a).Some? && !SameLaunches(s, Apply(s, a).value, q)
    ensures a == Launch(q) && q in s.procs && Admitted(s.procs[q])
  {
    hide Clear, Inv;
  }

  /** An ended process stays as it is, and a registration keeps its owner. */
  lemma EndedStays(s: State, a: Action, p: Pid)
    requires Inv(s) && Apply(s, a).Some? && p in s.procs && Ended(s.procs[p])
    ensures var t := Apply(s, a).value;
            && p in t.procs && t.procs[p] == s.procs[p]
            && (s.procs[p].registered && s.procs[p].key !in s.dir.seals ==> s.procs[p].key !in t.dir.seals)
  {
    hide Clear, RequiredFences, AdmissionOk, SealsOk, FencesOk, LockOk, ProcsOk;
  }

  lemma FailedFindings(s: State, p: Pid, d: bool)
    requires Inv(s) && (FailedPhase(s, p) || (FailedControl(s, p) && !d))
    ensures s.procs[p].key in s.dir.phases && s.dir.phases[s.procs[p].key] == p
    ensures PhaseFindings(s.dir, s.procs[p].key, d) != {}
  {
    hide LockOk, ProcsOk, FencesOk, AdmissionOk, RequiredFences;
    var key := s.procs[p].key;
    if key in s.dir.seals {
      var seal := s.dir.seals[key];
      assert seal.issues == s.procs[p].issues;
      if Identity in seal.issues {
        assert Identity in PhaseFindings(s.dir, key, d);
      } else if Cleanup in seal.issues {
        assert Cleanup in PhaseFindings(s.dir, key, d) || Identity in PhaseFindings(s.dir, key, d);
      } else {
        var c :| c in seal.issues;
        assert c in PhaseFindings(s.dir, key, d);
      }
    } else {
      assert Cleanup in PhaseFindings(s.dir, key, d);
    }
  }

  lemma NotAdmittedAfterFailure(s: State, p: Pid, q: Pid)
    requires Inv(s) && q in s.procs
    requires FailedPhase(s, p) || (FailedControl(s, p) && !s.procs[q].key.stage.Smoke?)
    ensures !Admitted(s.procs[q])
  {
    hide LockOk, ProcsOk, FencesOk, SealsOk, PhasesOk;
    FailedFindings(s, p, s.procs[q].key.stage.Smoke?);
  }

  lemma {:induction false} FailureStopsLaunches(s: State, actions: seq<Action>, p: Pid, q: Pid)
    requires Inv(s) && RunFrom(s, actions).Some?
    requires FailedPhase(s, p) || (FailedControl(s, p) && (q in RunFrom(s, actions).value.procs ==>
                                                          !RunFrom(s, actions).value.procs[q].key.stage.Smoke?))
    ensures SameLaunches(s, RunFrom(s, actions).value, q)
    ensures RunFrom(s, actions).value.procs.Keys >= s.procs.Keys
    ensures FailedPhase(s, p) ==> FailedPhase(RunFrom(s, actions).value, p)
    ensures FailedControl(s, p) ==> FailedControl(RunFrom(s, actions).value, p)
  {
    hide Inv, Apply;
    if actions != [] {
      var front, a := actions[..|actions| - 1], actions[|actions| - 1];
      var mid, t := RunFrom(s, front).value, RunFrom(s, actions).value;
      KeysStay(mid, a);
      FailureStopsLaunches(s, front, p, q);
      RunFromKeepsInv(s, front);
      EndedStays(mid, a, p);
      if !SameLaunches(mid, t, q) {
        LaunchNeedsAdmission(mid, a, q);
        NotAdmittedAfterFailure(mid, p, q);
      }
    }
  }

  lemma KeysStay(s: State, a: Action)
    requires Apply(s, a).Some?
    ensures var t := Apply(s, a).value;
            forall q | q in s.procs :: q in t.procs && t.procs[q].key == s.procs[q].key
  {
    hide Clear, ApplyLocal, RequiredFences;
    if ApplyLocal(s, a).Some? {
      LocalKeysStay(s, a);
    }
  }

  lemma LocalKeysStay(s: State, a: Action)
    requires ApplyLocal(s, a).Some?
    ensures var t := ApplyLocal(s, a).value;
            forall q | q in s.procs :: q in t.procs && t.procs[q].key == s.procs[q].key
  {
    hide RequiredFences;
  }

  /**
   After a registered phase has ended without a seal (a crash or failure between registration and seal), or with an
   identity or cleanup issue, no process launches anything any more, in any continuation.
   */
  lemma NothingLaunchesAfterFailure(before: seq<Action>, after: seq<Action>, p: Pid)
    requires Run(before + after).Some? && Run(before).Some? && FailedPhase(Run(before).value, p)
    ensures forall q :: SameLaunches(Run(before).value, Run(before + after).value, q)
  {
    hide Inv, RunFrom, FailedPhase, SameLaunches;
    RunKeepsInv(before);
    RunFromJoin(Empty(), before, after);
    forall q ensures SameLaunches(Run(before).value, Run(before + after).value, q) {
      FailureStopsLaunches(Run(before).value, after, p, q);
    }
  }

  /** After a control has ended unsealed or with any issue, no calibration, control or comparison launches any more. */
  lemma FailedControlBlocksQualification(before: seq<Action>, after: seq<Action>, p: Pid, q: Pid)
    requires Run(before + after).Some? && Run(before).Some? && FailedControl(Run(before).value, p)
    requires q in Run(before + after).value.procs && !Run(before + after).value.procs[q].key.stage.Smoke?
    ensures SameLaunches(Run(before).value, Run(before + after).value, q)
  {
    hide Inv, RunFrom, FailedControl, SameLaunches;
    RunKeepsInv(before);
    RunFromJoin(Empty(), before, after);
    FailureStopsLaunches(Run(before).value, after, p, q);
  }

  /**
   A diagnostic smoke is admitted only past sealed controls, each of them without issues or failed on numbers alone: no
   admission issues, some issue numerical or inconclusive, none outside these and incomplete, and receipts that say so.
   */
  lemma DiagnosticNeedsNumericalControls(actions: seq<Action>, q: Pid, key: Key)
    requires Run(actions).Some? && q in Run(actions).value.procs
    requires var s := Run(actions).value;
             Admitted(s.procs[q]) && s.procs[q].key.stage.Smoke? && key in s.dir.phases && key.stage.Control?
    ensures var s := Run(actions).value;
            && key in s.dir.seals
            && var seal := s.dir.seals[key];
               seal.issues != {} ==>
                 && !seal.admissionIssues && (Numerical in seal.issues || Inconclusive in seal.issues)
                 && (forall c | c in seal.issues :: c == Numerical || c == Inconclusive || c == Incomplete)
                 && seal.receipts == NumericalOnly
  {
    hide Run;
    RunKeepsInv(actions);
    var s := Run(actions).value;
    assert s.dir.phases[key] != q;
    assert PhaseFindings(s.dir, key, true) == {};
    assert forall c :: !PhaseReports(s.dir, key, c, true) by {
      forall c ensures !PhaseReports(s.dir, key, c, true) {
        FindingsAre(s.dir, key, c, true);
      }
    }
    assert !PhaseReports(s.dir, key, Cleanup, true) && !PhaseReports(s.dir, key, Identity, true);
    if s.dir.seals[key].issues != {} {
      var c :| c in s.dir.seals[key].issues;
      assert !PhaseReports(s.dir, key, c, true);
    }
  }

  // ----- an identity or cleanup fence -----------------------------------------------------------

  /*
   A process that is refused the lock still verifies its inputs in its final block and can write an identity fence
   while another phase is running. The fence stops every later fence check, but not the phase that is past its own.
   */

  ghost predicate BadFence(dir: Dir) {
    exists fence :: fence in dir.fences && (fence.category.Identity? || fence.category.Cleanup?)
  }

  /** Past the fence check with an attempt left to launch; a comparison checks the fences once more when it prepares. */
  predicate MayStillLaunch(s: State, q: Pid) {
    q in s.procs &&
    var proc := s.procs[q];
    var slotLeft := proc.issues == {} && proc.attempts < Slots(proc.key.stage);
    match proc.pc
    case Started => true
    case Running => slotLeft
    case InFlight => slotLeft
    case Preparing => slotLeft && !proc.key.stage.Comparison?
    case Cleared => slotLeft && !proc.key.stage.Comparison? && proc.key !in s.dir.phases
    case _ => false
  }

  lemma FenceFound(dir: Dir, ignore: Option<Key>, d: bool)
    requires BadFence(dir)
    ensures !Clear(dir, ignore, d)
  {
    var fence :| fence in dir.fences && (fence.category.Identity? || fence.category.Cleanup?);
    assert Finds(dir, fence.category, ignore, d);
  }

  predicate Acts(a: Action, q: Pid) {
    !a.RemoveStaleLock? && a.p == q
  }

  lemma OthersStay(s: State, a: Action, q: Pid)
    requires Apply(s, a).Some? && !Acts(a, q)
    ensures var t := Apply(s, a).value;
            && (q in t.procs <==> q in s.procs) && (q in s.procs ==> t.procs[q] == s.procs[q])
            && s.dir.phases.Keys <= t.dir.phases.Keys
  {
    hide Clear, RequiredFences;
  }

  lemma LaunchIsPossible(s: State, q: Pid)
    requires Apply(s, Launch(q)).Some?
    ensures MayStillLaunch(s, q)
  {
  }

  /** A fenced process comes no nearer to a launch by its own step, unless it was past the check. */
  lemma OwnStep(s: State, a: Action, q: Pid)
    requires BadFence(s.dir) && Apply(s, a).Some? && Acts(a, q) && MayStillLaunch(Apply(s, a).value, q)
    ensures MayStillLaunch(s, q)
  {
    hide Clear, RequiredFences, BadFence;
    if a.CheckFences? {
      FenceFound(s.dir, None, s.procs[q].key.stage.Smoke?);
    } else if a.Prepare? {
      FenceFound(s.dir, Some(s.procs[q].key), false);
    }
  }

  lemma FenceStepOne(s: State, a: Action, q: Pid)
    requires BadFence(s.dir) && Apply(s, a).Some?
    ensures MayStillLaunch(Apply(s, a).value, q) ==> MayStillLaunch(s, q)
    ensures !SameLaunches(s, Apply(s, a).value, q) ==> MayStillLaunch(s, q)
  {
    hide Apply, BadFence;
    if !SameLaunches(s, Apply(s, a).value, q) {
      LaunchNeedsAdmission(s, a, q);
      LaunchIsPossible(s, q);
    }
    if MayStillLaunch(Apply(s, a).value, q) {
      if Acts(a, q) {
        OwnStep(s, a, q);
      } else {
        OthersStay(s, a, q);
      }
    }
  }

  lemma FenceStep(s: State, a: Action)
    requires BadFence(s.dir) && Apply(s, a).Some?
    ensures BadFence(Apply(s, a).value.dir)
    ensures forall q | MayStillLaunch(Apply(s, a).value, q) :: MayStillLaunch(s, q)
    ensures forall q | !SameLaunches(s, Apply(s, a).value, q) :: MayStillLaunch(s, q)
  {
    hide BadFence, Apply, MayStillLaunch, SameLaunches;
    FenceStays(s, a);
    forall q
      ensures MayStillLaunch(Apply(s, a).value, q) ==> MayStillLaunch(s, q)
      ensures !SameLaunches(s, Apply(s, a).value, q) ==> MayStillLaunch(s, q)
    {
      FenceStepOne(s, a, q);
    }
  }

  lemma FenceStays(s: State, a: Action)
    requires BadFence(s.dir) && Apply(s, a).Some?
    ensures BadFence(Apply(s, a).value.dir)
  {
    hide Clear, PhaseFindings, RequiredFences;
    var fence :| fence in s.dir.fences && (fence.category.Identity? || fence.category.Cleanup?);
    assert fence in Apply(s, a).value.dir.fences;
  }

  lemma {:induction false} FenceStops(s: State, actions: seq<Action>)
    requires BadFence(s.dir) && RunFrom(s, actions).Some? && forall q :: !MayStillLaunch(s, q)
    ensures var t := RunFrom(s, actions).value;
            BadFence(t.dir) && forall q :: !MayStillLaunch(t, q) && SameLaunches(s, t, q)
  {
    hide Apply, BadFence, MayStillLaunch;
    if actions != [] {
      FenceStops(s, actions[..|actions| - 1]);
      FenceStep(RunFrom(s, actions[..|actions| - 1]).value, actions[|actions| - 1]);
    }
  }

  lemma Prefixed(s: State, a: Action, rest: seq<Action>)
    requires Apply(s, a).Some?
    ensures RunFrom(s, [a] + rest) == RunFrom(Apply(s, a).value, rest)
  {
    hide Apply;
    RunFromJoin(s, [a], rest);
    assert [a][..0] == [] && RunFrom(s, []) == Some(s);
    assert RunFrom(s, [a]) == Apply(s, a);
  }

  /** A process that may still launch does launch in some continuation. */
  lemma {:induction false} StillLaunches(s: State, q: Pid) returns (actions: seq<Action>)
    requires MayStillLaunch(s, q)
    ensures RunFrom(s, actions).Some? && LaunchesOf(RunFrom(s, actions).value, q) == LaunchesOf(s, q) + 1
    decreases match s.procs[q].pc case Started => 0 case Running => 1 case InFlight => 2 case Preparing => 3 case _ => 4
  {
    hide Clear;
    var proc := s.procs[q];
    if proc.pc.Started? {
      Prefixed(s, Launch(q), []);
      actions := [Launch(q)] + [];
    } else {
      var a := if proc.pc.Running? then SaveStarted(q) else if proc.pc.InFlight? then Retain(q, {})
               else if proc.pc.Preparing? then Prepare(q, {}) else TryRegister(q);
      var rest := StillLaunches(Apply(s, a).value, q);
      Prefixed(s, a, rest);
      actions := [a] + rest;
    }
  }

  /**
   Once an identity or cleanup fence is written, no continuation launches anything exactly when no process is
   already past its fence check with an attempt left.
   */
  lemma FenceStopsExactly(s: State)
    requires BadFence(s.dir)
    ensures (forall actions, q | RunFrom(s, actions).Some? :: SameLaunches(s, RunFrom(s, actions).value, q))
       <==> (forall q :: !MayStillLaunch(s, q))
  {
    hide RunFrom, MayStillLaunch, BadFence;
    if forall q :: !MayStillLaunch(s, q) {
      forall actions, q | RunFrom(s, actions).Some? ensures SameLaunches(s, RunFrom(s, actions).value, q) {
        FenceStops(s, actions);
      }
    } else {
      var q :| MayStillLaunch(s, q);
      var actions := StillLaunches(s, q);
      assert !SameLaunches(s, RunFrom(s, actions).value, q);
    }
  }

  lemma NothingFound(dir: Dir, d: bool)
    requires dir.phases == map[] && dir.fences == {}
    ensures Clear(dir, None, d)
  {
  }

  /** Such a process exists: a refused contender fences the campaign while the owner is still preparing. */
  lemma ContenderFencesRunningPhase() returns (actions: seq<Action>)
    ensures Run(actions).Some? && BadFence(Run(actions).value.dir) && MayStillLaunch(Run(actions).value, 0)
  {
    hide BadFence, Clear, Finds, Run;
    var k0, k1 := Key(0, Calibration, 0), Key(1, Calibration, 0);
    EmptyRun();
    var s1, a1 := Follow(Empty(), [], Spawn(0, k0));
    var s2, a2 := Follow(s1, a1, TryLock(0));
    NothingFound(s2.dir, false);
    var s3, a3 := Follow(s2, a2, CheckFences(0));
    var s4, a4 := Follow(s3, a3, TryRegister(0));
    var s5, a5 := Follow(s4, a4, Spawn(1, k1));
    var s6, a6 := Follow(s5, a5, TryLock(1));
    var s7, a7 := Follow(s6, a6, FinalChecks(1, {Identity}));
    assert Identity in s7.procs[1].issues * {Identity, Cleanup};
    var s8, a8 := Follow(s7, a7, FenceOne(1, Fence(Identity, k1)));
    FenceIsBad(s8.dir, Fence(Identity, k1));
    actions := a8;
  }

  lemma EmptyRun()
    ensures Run([]) == Some(Empty())
  {
  }

  lemma Follow(s: State, actions: seq<Action>, a: Action) returns (t: State, longer: seq<Action>)
    requires Run(actions) == Some(s) && Apply(s, a).Some?
    ensures t == Apply(s, a).value && Run(longer) == Some(t)
  {
    hide Apply;
    t, longer := Apply(s, a).value, actions + [a];
    assert longer[..|longer| - 1] == actions;
  }

  lemma FenceIsBad(dir: Dir, fence: Fence)
    requires fence in dir.fences && fence.category.Identity?
    ensures BadFence(dir)
  {
  }
}
