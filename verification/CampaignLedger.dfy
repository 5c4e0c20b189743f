/**
 What a run writes down: the issues, attempts and fences of every process, as conditions on the actions that were taken.
 No issue is lost or invented, and no fence is.
 */
module CampaignLedger {
  import opened Wrappers
  import opened CampaignDirectory
  import opened Stages
  import opened CampaignRuns
  import opened CampaignAdmission
  import opened CampaignSafety

  /** The fence check of a process reports `c`. */
  ghost predicate Reported(dir: Dir, c: Category, ignore: Option<Key>, diagnostic: bool) {
    || (exists key :: key in dir.phases && Some(key) != ignore && PhaseReports(dir, key, c, diagnostic))
    || (exists fence :: fence in dir.fences && !Excused(dir, fence, ignore, diagnostic) && c == fence.category)
  }

  // ----- attempts -------------------------------------------------------------------------------

  /** How often an action was taken. */
  function Times(actions: seq<Action>, a: Action): nat {
    if actions == [] then 0
    else Times(actions[..|actions| - 1], a) + if actions[|actions| - 1] == a then 1 else 0
  }

  predicate Retains(a: Action, p: Pid) {
    a.Retain? && a.p == p
  }

  /** The last attempt whose start was saved has no raw receipt. */
  predicate Open(actions: seq<Action>, p: Pid) {
    exists i | 0 <= i < |actions| ::
      actions[i] == SaveStarted(p) && forall j | i < j < |actions| :: !Retains(actions[j], p)
  }

  lemma TimesNext(actions: seq<Action>, a: Action, b: Action)
    ensures Times(actions + [b], a) == Times(actions, a) + if b == a then 1 else 0
  {
    assert (actions + [b])[..|actions|] == actions;
  }

  lemma OpenNext(actions: seq<Action>, a: Action, p: Pid)
    ensures Open(actions + [a], p) <==> a == SaveStarted(p) || (Open(actions, p) && !Retains(a, p))
  {
    var more := actions + [a];
    if Open(actions, p) && !Retains(a, p) {
      var i :| 0 <= i < |actions| && actions[i] == SaveStarted(p) && forall j | i < j < |actions| :: !Retains(actions[j], p);
      assert more[i] == SaveStarted(p);
      assert forall j | i < j < |more| :: !Retains(more[j], p);
    }
    if a == SaveStarted(p) {
      assert more[|actions|] == a;
    }
    if Open(more, p) && a != SaveStarted(p) {
      var i :| 0 <= i < |more| && more[i] == SaveStarted(p) && forall j | i < j < |more| :: !Retains(more[j], p);
      assert actions[i] == SaveStarted(p) && !Retains(more[|actions|], p);
      assert forall j | i < j < |actions| :: actions[j] == more[j];
    }
  }

  // ----- issues ---------------------------------------------------------------------------------

  /** Action `a` of process `p`, after `before`, is a reason for an issue of category `c`. */
  ghost predicate Raises(before: seq<Action>, a: Action, p: Pid, c: Category)
    requires Run(before).Some?
  {
    var s := Run(before).value;
    p in s.procs &&
    var key := s.procs[p].key;
    match a
    case TryLock(q) => q == p && c == Admission && s.dir.active.Some?
    case CheckFences(q) => q == p && Reported(s.dir, c, None, key.stage.Smoke?)
    case TryRegister(q) => q == p && c == Collector && key in s.dir.phases
    case Prepare(q, found) =>
      && q == p
      && (c in found || (c == Prerequisite && key.stage.Comparison? && exists b :: Reported(s.dir, b, Some(key), false)))
    case RefuseLaunch(q) => q == p && c == Deadline
    case Retain(q, found) => q == p && c in found
    case Grade(q, found) => q == p && c in found
    case Interrupt(q) => q == p && (c == Interrupted || (c == Cleanup && Open(before, p)))
    case FinalChecks(q, found) =>
      q == p && (c in found || (c == Incomplete && Times(before, SaveStarted(p)) < Slots(key.stage)))
    case _ => false
  }

  ghost predicate WasRaised(actions: seq<Action>, p: Pid, c: Category)
    requires Run(actions).Some?
  {
    exists i | 0 <= i < |actions| :: RunsTo(actions, i) && Raises(actions[..i], actions[i], p, c)
  }

  ghost predicate RunsTo(actions: seq<Action>, i: nat) {
    i <= |actions| && Run(actions[..i]).Some?
  }

  lemma RunNext(actions: seq<Action>, a: Action)
    requires Run(actions + [a]).Some?
    ensures Run(actions).Some? && Apply(Run(actions).value, a) == Run(actions + [a])
  {
    hide Apply;
    assert (actions + [a])[..|actions|] == actions;
  }

  lemma RaisedNext(actions: seq<Action>, a: Action, p: Pid, c: Category)
    requires Run(actions + [a]).Some? && Run(actions).Some?
    ensures WasRaised(actions + [a], p, c) <==> WasRaised(actions, p, c) || Raises(actions, a, p, c)
  {
    hide Run, Raises;
    var more := actions + [a];
    assert forall i | 0 <= i <= |actions| :: more[..i] == actions[..i];
    assert more[..|actions|] == actions && more[|actions|] == a;
    if WasRaised(actions, p, c) {
      var i :| 0 <= i < |actions| && RunsTo(actions, i) && Raises(actions[..i], actions[i], p, c);
      assert RunsTo(more, i) && more[i] == actions[i];
    }
    if Raises(actions, a, p, c) {
      assert RunsTo(more, |actions|);
    }
    if WasRaised(more, p, c) {
      var i :| 0 <= i < |more| && RunsTo(more, i) && Raises(more[..i], more[i], p, c);
      if i < |actions| {
        assert RunsTo(actions, i);
      }
    }
  }

  /** Issues, attempts and launches of a process are those of the actions. */
  ghost predicate Entered(actions: seq<Action>, p: Pid)
    requires Run(actions).Some? && p in Run(actions).value.procs
  {
    var proc := Run(actions).value.procs[p];
    && (forall c :: c in proc.issues <==> WasRaised(actions, p, c))
    && proc.attempts == Times(actions, SaveStarted(p)) && proc.launches == Times(actions, Launch(p))
    && (proc.rawMissing <==> Open(actions, p))
    && (proc.pc.Begin? ==> proc.issues == {})
  }

  lemma ReportsAre(dir: Dir, ignore: Option<Key>, diagnostic: bool)
    ensures forall c :: Finds(dir, c, ignore, diagnostic) <==> Reported(dir, c, ignore, diagnostic)
    ensures Clear(dir, ignore, diagnostic) <==> forall c :: !Reported(dir, c, ignore, diagnostic)
  {
    hide Finds, PhaseReports, Excused;
    forall c ensures Finds(dir, c, ignore, diagnostic) <==> Reported(dir, c, ignore, diagnostic) {
      FindsExactly(dir, c, ignore, diagnostic);
    }
  }

  /** The issues that an action adds to those of a process. */
  ghost predicate Adds(s: State, a: Action, p: Pid, c: Category)
    requires Apply(s, a).Some?
  {
    var t := Apply(s, a).value;
    p in s.procs && p in t.procs && (c in t.procs[p].issues <==> c in s.procs[p].issues || Gives(s, a, p, c))
  }

  /** The same reasons, with what the state knows of the attempts. */
  ghost predicate Gives(s: State, a: Action, p: Pid, c: Category) {
    p in s.procs &&
    var proc := s.procs[p];
    match a
    case TryLock(q) => q == p && c == Admission && s.dir.active.Some?
    case CheckFences(q) => q == p && Finds(s.dir, c, None, proc.key.stage.Smoke?)
    case TryRegister(q) => q == p && c == Collector && proc.key in s.dir.phases
    case Prepare(q, found) =>
      q == p && (c in found || (c == Prerequisite && proc.key.stage.Comparison? && !Clear(s.dir, Some(proc.key), false)))
    case RefuseLaunch(q) => q == p && c == Deadline
    case Retain(q, found) => q == p && c in found
    case Grade(q, found) => q == p && c in found
    case Interrupt(q) => q == p && (c == Interrupted || (c == Cleanup && proc.rawMissing))
    case FinalChecks(q, found) => q == p && (c in found || (c == Incomplete && proc.attempts < Slots(proc.key.stage)))
    case _ => false
  }

  lemma LocalAdds(s: State, a: Action, p: Pid, c: Category)
    requires ApplyLocal(s, a).Some? && Apply(s, a) == ApplyLocal(s, a) && p in s.procs && Acts(a, p)
    ensures Adds(s, a, p, c)
  {
    hide Finds, Clear, RequiredFences, Apply;
  }

  predicate Checks(a: Action) {
    a.CheckFences? || a.Prepare?
  }

  lemma FilesAdd(s: State, a: Action, p: Pid, c: Category)
    requires Apply(s, a).Some? && p in s.procs && Acts(a, p) && (a.TryLock? || a.TryRegister?)
    requires s.procs[p].pc.Begin? ==> s.procs[p].issues == {}
    ensures Adds(s, a, p, c)
  {
    hide Finds, Clear, RequiredFences, ApplyLocal;
  }

  lemma FilesKeep(s: State, a: Action, p: Pid, c: Category)
    requires Apply(s, a).Some? && p in s.procs && Acts(a, p) && (a.FenceOne? || a.SaveSeal? || a.Exit?)
    ensures Adds(s, a, p, c)
  {
    hide Finds, Clear, RequiredFences, ApplyLocal;
  }

  lemma OtherKinds(s: State, a: Action)
    requires Apply(s, a).Some? && ApplyLocal(s, a).None?
    ensures Checks(a) || a.TryLock? || a.TryRegister? || a.FenceOne? || a.SaveSeal? || a.Exit? || a.RemoveStaleLock?
  {
    hide Finds, Clear, RequiredFences, ApplyLocal;
  }

  lemma ChecksAdd(s: State, a: Action, p: Pid, c: Category)
    requires Apply(s, a).Some? && p in s.procs && Acts(a, p) && Checks(a)
    ensures Adds(s, a, p, c)
  {
    hide Finds, RequiredFences, ApplyLocal;
    if a.CheckFences? {
      assert Clear(s.dir, None, s.procs[p].key.stage.Smoke?) ==> !Finds(s.dir, c, None, s.procs[p].key.stage.Smoke?);
    }
    hide Clear;
  }

  lemma GivesRaises(actions: seq<Action>, a: Action, p: Pid, c: Category)
    requires Run(actions).Some? && p in Run(actions).value.procs && Entered(actions, p)
    ensures Gives(Run(actions).value, a, p, c) <==> Raises(actions, a, p, c)
  {
    var s := Run(actions).value;
    ReportsAre(s.dir, None, s.procs[p].key.stage.Smoke?);
    ReportsAre(s.dir, Some(s.procs[p].key), false);
    hide Finds, Reported, WasRaised, Run, Clear, Open, Times;
  }

  /** The issues of a process after an action: its own before, and what the action raises. */
  lemma IssuesNext(actions: seq<Action>, a: Action, p: Pid)
    requires Run(actions).Some? && Apply(Run(actions).value, a).Some? && p in Run(actions).value.procs
    requires Entered(actions, p)
    ensures var s, t := Run(actions).value, Apply(Run(actions).value, a).value;
            p in t.procs && forall c :: c in t.procs[p].issues <==> c in s.procs[p].issues || Raises(actions, a, p, c)
  {
    hide ApplyLocal, Apply, Gives, Raises, Run, WasRaised, Open, Times;
    var s := Run(actions).value;
    AttemptsNext(s, a, p);
    forall c ensures c in Apply(s, a).value.procs[p].issues <==> c in s.procs[p].issues || Raises(actions, a, p, c) {
      if !Acts(a, p) {
        OthersAdd(s, a, p, c);
      } else if ApplyLocal(s, a).Some? {
        LocalOrFile(s, a);
        LocalAdds(s, a, p, c);
      } else if Checks(a) {
        ChecksAdd(s, a, p, c);
      } else {
        OtherKinds(s, a);
        if a.TryLock? || a.TryRegister? {
          FilesAdd(s, a, p, c);
        } else {
          FilesKeep(s, a, p, c);
        }
      }
      GivesRaises(actions, a, p, c);
      assert Adds(s, a, p, c);
    }
  }

  /** The actions of others add nothing. */
  lemma OthersAdd(s: State, a: Action, p: Pid, c: Category)
    requires Apply(s, a).Some? && p in s.procs && !Acts(a, p)
    ensures Adds(s, a, p, c)
  {
    hide Apply, Finds, Clear;
    OthersStay(s, a, p);
  }

  lemma LocalOrFile(s: State, a: Action)
    requires ApplyLocal(s, a).Some?
    ensures Apply(s, a) == ApplyLocal(s, a)
  {
    hide Clear, Finds;
  }

  /** The attempts of a process after an action. */
  lemma AttemptsNext(s: State, a: Action, p: Pid)
    requires Apply(s, a).Some? && p in s.procs
    ensures var t := Apply(s, a).value;
            && p in t.procs && t.procs[p].attempts == s.procs[p].attempts + (if a == SaveStarted(p) then 1 else 0)
            && t.procs[p].launches == s.procs[p].launches + (if a == Launch(p) then 1 else 0)
            && (t.procs[p].rawMissing <==> a == SaveStarted(p) || (s.procs[p].rawMissing && !Retains(a, p)))
            && (t.procs[p].pc.Begin? ==> s.procs[p].pc.Begin? && t.procs[p].issues == s.procs[p].issues)
  {
    hide Clear, Finds, RequiredFences;
  }

  /** A new process has an empty account. */
  lemma SpawnedNext(s: State, a: Action, p: Pid)
    requires Apply(s, a).Some? && p !in s.procs && p in Apply(s, a).value.procs
    ensures a.Spawn? && a.p == p
    ensures Apply(s, a).value.procs[p] == Proc(a.key, Begin, false, false, {}, false, 0, 0)
    ensures !a.key.stage.Smoke? ==> a.key.tag == 0
  {
    hide Clear, Finds, RequiredFences;
  }

  /** A process that was not spawned took no action. */
  lemma {:induction false} NoAccount(actions: seq<Action>, p: Pid)
    requires Run(actions).Some? && p !in Run(actions).value.procs
    ensures Times(actions, SaveStarted(p)) == 0 && Times(actions, Launch(p)) == 0 && !Open(actions, p)
    ensures forall c :: !WasRaised(actions, p, c)
  {
    if actions != [] {
      var front, a := actions[..|actions| - 1], actions[|actions| - 1];
      assert front + [a] == actions;
      RunNext(front, a);
      NotBefore(Run(front).value, a, p);
      NoAccount(front, p);
      TimesNext(front, SaveStarted(p), a);
      TimesNext(front, Launch(p), a);
      OpenNext(front, a, p);
      forall c ensures !WasRaised(actions, p, c) {
        RaisedNext(front, a, p, c);
      }
    }
  }

  lemma NotBefore(s: State, a: Action, p: Pid)
    requires Apply(s, a).Some? && p !in Apply(s, a).value.procs
    ensures p !in s.procs && a != SaveStarted(p) && a != Launch(p)
  {
    hide Clear, Finds, RequiredFences;
  }

  lemma {:induction false} EveryAccount(actions: seq<Action>, p: Pid)
    requires Run(actions).Some? && p in Run(actions).value.procs
    ensures Entered(actions, p)
  {
    assert actions == [] ==> Run(actions) == Some(Empty());
    if actions != [] {
      var front, a := actions[..|actions| - 1], actions[|actions| - 1];
      assert front + [a] == actions;
      RunNext(front, a);
      var s, t := Run(front).value, Run(actions).value;
      TimesNext(front, SaveStarted(p), a);
      TimesNext(front, Launch(p), a);
      OpenNext(front, a, p);
      forall c ensures WasRaised(actions, p, c) <==> WasRaised(front, p, c) || Raises(front, a, p, c) {
        RaisedNext(front, a, p, c);
      }
      if p in s.procs {
        EveryAccount(front, p);
        AttemptsNext(s, a, p);
        IssuesNext(front, a, p);
      } else {
        SpawnedNext(s, a, p);
        NoAccount(front, p);
        assert forall c :: !Raises(front, a, p, c);
      }
      hide Run, Apply, Raises, WasRaised, Open, Times;
    }
  }

  /** No issue is lost or invented: a process has exactly the issues that its actions raised. */
  lemma IssuesExactly(actions: seq<Action>, p: Pid, c: Category)
    requires Run(actions).Some? && p in Run(actions).value.procs
    ensures c in Run(actions).value.procs[p].issues <==> WasRaised(actions, p, c)
  {
    hide Run, WasRaised, Open, Times;
    EveryAccount(actions, p);
  }

  /** Attempts and launches are counted exactly, and a start that was never launched is reported. */
  lemma AttemptsExactly(actions: seq<Action>, p: Pid)
    requires Run(actions).Some? && p in Run(actions).value.procs
    ensures var proc := Run(actions).value.procs[p];
            && proc.attempts == Times(actions, SaveStarted(p)) && proc.launches == Times(actions, Launch(p))
            && (proc.rawMissing <==> Open(actions, p))
  {
    hide Run, WasRaised, Open, Times;
    EveryAccount(actions, p);
  }

  // ----- fences ---------------------------------------------------------------------------------

  /** The process has a reason for the fence. */
  predicate HasReason(proc: Proc, fence: Fence) {
    && fence.phase == proc.key
    && match fence.category
       case Identity => Identity in proc.issues
       case Cleanup => Cleanup in proc.issues
       case ControlFailed => proc.key.stage.Control? && proc.registered && proc.issues != {}
       case _ => false
  }

  lemma RequiredAre(proc: Proc, fence: Fence)
    ensures fence in RequiredFences(proc) <==> HasReason(proc, fence)
  {
    if fence.category == Identity && HasReason(proc, fence) {
      assert Identity in proc.issues * {Identity, Cleanup};
    }
    if fence.category == Cleanup && HasReason(proc, fence) {
      assert Cleanup in proc.issues * {Identity, Cleanup};
    }
  }

  ghost predicate FencesReasoned(s: State) {
    && (forall fence | fence in s.dir.fences :: exists p :: p in s.procs && HasReason(s.procs[p], fence))
    && (forall p, fence | p in s.procs && s.procs[p].pc.Fencing? && fence in s.procs[p].pc.todo :: HasReason(s.procs[p], fence))
  }

  /** A reason stays: issues are only added, and a registration is kept. */
  lemma ReasonStays(s: State, a: Action, p: Pid, fence: Fence)
    requires Apply(s, a).Some? && p in s.procs && (s.procs[p].pc.Begin? ==> s.procs[p].issues == {})
    requires HasReason(s.procs[p], fence)
    ensures p in Apply(s, a).value.procs && HasReason(Apply(s, a).value.procs[p], fence)
  {
    hide Clear, Finds, RequiredFences;
  }

  lemma NewFence(s: State, a: Action, fence: Fence)
    requires Apply(s, a).Some? && fence in Apply(s, a).value.dir.fences && fence !in s.dir.fences
    ensures a.FenceOne? && a.fence == fence && a.p in s.procs && s.procs[a.p].pc.Fencing? && fence in s.procs[a.p].pc.todo
  {
    hide Clear, Finds, RequiredFences;
  }

  lemma NewTodo(s: State, a: Action, p: Pid, fence: Fence)
    requires Apply(s, a).Some? && p in Apply(s, a).value.procs
    requires Apply(s, a).value.procs[p].pc.Fencing? && fence in Apply(s, a).value.procs[p].pc.todo
    ensures p in s.procs
    ensures || (s.procs[p].pc.Fencing? && fence in s.procs[p].pc.todo)
            || fence in RequiredFences(Apply(s, a).value.procs[p])
  {
    hide Clear, Finds;
    var t := Apply(s, a).value;
    if a.FinalChecks? {
      SameRequired(t.procs[p].(pc := Finishing), t.procs[p]);
    }
  }

  lemma {:induction false} FencesAreReasoned(actions: seq<Action>)
    requires Run(actions).Some?
    ensures FencesReasoned(Run(actions).value)
  {
    if actions == [] {
      assert Run([]) == Some(Empty());
    } else {
      var front, a := actions[..|actions| - 1], actions[|actions| - 1];
      assert front + [a] == actions;
      RunNext(front, a);
      var s, t := Run(front).value, Run(actions).value;
      FencesAreReasoned(front);
      forall p | p in s.procs ensures s.procs[p].pc.Begin? ==> s.procs[p].issues == {} {
        EveryAccount(front, p);
      }
      hide Run, Apply, HasReason;
      forall fence | fence in t.dir.fences ensures exists p :: p in t.procs && HasReason(t.procs[p], fence) {
        if fence in s.dir.fences {
          var p :| p in s.procs && HasReason(s.procs[p], fence);
          ReasonStays(s, a, p, fence);
        } else {
          NewFence(s, a, fence);
          ReasonStays(s, a, a.p, fence);
        }
      }
      forall p, fence | p in t.procs && t.procs[p].pc.Fencing? && fence in t.procs[p].pc.todo ensures HasReason(t.procs[p], fence) {
        NewTodo(s, a, p, fence);
        if fence in RequiredFences(t.procs[p]) {
          RequiredAre(t.procs[p], fence);
        } else {
          ReasonStays(s, a, p, fence);
        }
      }
    }
  }

  /**
   Every fence on disk has its reason, an identity or cleanup issue of its phase or a registered control that failed; and
   every such reason of a process whose summary is saved is fenced.
   */
  lemma FencesExactly(actions: seq<Action>, fence: Fence)
    requires Run(actions).Some?
    ensures var s := Run(actions).value;
            fence in s.dir.fences ==> exists p :: p in s.procs && HasReason(s.procs[p], fence)
    ensures var s := Run(actions).value;
            forall p | p in s.procs && HasReason(s.procs[p], fence)
                       && (s.procs[p].pc.Sealing? || (s.procs[p].registered && s.procs[p].key in s.dir.seals)) ::
              fence in s.dir.fences
  {
    FencesAreReasoned(actions);
    RunKeepsInv(actions);
    hide Run;
    var s := Run(actions).value;
    forall p | p in s.procs && HasReason(s.procs[p], fence)
               && (s.procs[p].pc.Sealing? || (s.procs[p].registered && s.procs[p].key in s.dir.seals))
      ensures fence in s.dir.fences
    {
      RequiredAre(s.procs[p], fence);
      hide RequiredFences, HasReason, PhaseFindings;
      if !s.procs[p].pc.Sealing? {
        assert s.dir.phases[s.procs[p].key] == p;
      }
    }
  }

  // ----- names ----------------------------------------------------------------------------------

  lemma {:induction false} NamesAre(actions: seq<Action>, p: Pid)
    requires Run(actions).Some? && p in Run(actions).value.procs
    ensures var key := Run(actions).value.procs[p].key; key.stage.Smoke? || key.tag == 0
  {
    assert actions == [] ==> Run(actions) == Some(Empty());
    if actions != [] {
      var front, a := actions[..|actions| - 1], actions[|actions| - 1];
      assert front + [a] == actions;
      RunNext(front, a);
      var s := Run(front).value;
      if p in s.procs {
        NamesAre(front, p);
        KeysStay(s, a);
      } else {
        SpawnedNext(s, a, p);
      }
    }
  }

  /** Each case is calibrated, controlled and compared by one process at most. */
  lemma OneQualificationPerCase(actions: seq<Action>, p: Pid, q: Pid)
    requires Run(actions).Some? && p in Run(actions).value.procs && q in Run(actions).value.procs
    requires var s := Run(actions).value;
             && s.procs[p].launches > 0 && s.procs[q].launches > 0 && !s.procs[p].key.stage.Smoke?
             && s.procs[p].key.caseId == s.procs[q].key.caseId && s.procs[p].key.stage == s.procs[q].key.stage
    ensures p == q
  {
    NamesAre(actions, p);
    NamesAre(actions, q);
    RunKeepsInv(actions);
    hide Run;
    var s := Run(actions).value;
    assert ProcOk(s.procs[p]) && ProcOk(s.procs[q]);
  }
}
