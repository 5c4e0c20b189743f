/**
 Runs of `collect_steps` on one campaign directory.

 Any number of phase processes take steps in any order; a process can crash after any step, or fail inside its
 final block, and an operator can delete the lock file of a crashed owner. Each action is one file operation or
 one stretch of the generator between two of them.
 */
module CampaignRuns {
  import opened Wrappers
  import opened CampaignDirectory
  import opened Stages

  /** Where a phase process is. */
  datatype Pc =
    | Begin           // before the lock file
    | Admitting       // lock held or refused, before the fence check
    | Cleared         // the fence check found nothing
    | Preparing       // registered
    | Running         // between attempts
    | Started         // the started receipt is saved
    | InFlight        // the child was launched
    | Finishing       // the final block
    | Fencing(todo: set<Fence>)
    | Sealing         // summary.json is saved
    | Exiting         // leaving the lock
    | Done
    | Dead            // crashed

  datatype Proc = Proc(key: Key, pc: Pc, owner: bool, registered: bool, issues: set<Category>, rawMissing: bool,
                       attempts: nat, launches: nat)

  datatype State = State(dir: Dir, procs: map<Pid, Proc>)

  datatype Action =
    | Spawn(p: Pid, key: Key)
    | TryLock(p: Pid)
    | CheckFences(p: Pid)
    | TryRegister(p: Pid)
    | Prepare(p: Pid, found: set<Category>)
    | SaveStarted(p: Pid)
    | RefuseLaunch(p: Pid)
    | Launch(p: Pid)
    | Retain(p: Pid, found: set<Category>)
    | Grade(p: Pid, found: set<Category>)
    | Interrupt(p: Pid)
    | FinalChecks(p: Pid, found: set<Category>)
    | FenceOne(p: Pid, fence: Fence)
    | SaveSummary(p: Pid)
    | SaveSeal(p: Pid, admissionIssues: bool, receipts: Receipts)
    | FailFinal(p: Pid)
    | Exit(p: Pid)
    | Crash(p: Pid)
    | RemoveStaleLock

  /** The fences that the final block writes. */
  function RequiredFences(proc: Proc): set<Fence> {
    (set c | c in proc.issues * {Identity, Cleanup} :: Fence(c, proc.key))
    + (if proc.key.stage.Control? && proc.issues != {} && proc.registered then {Fence(ControlFailed, proc.key)} else {})
  }

  predicate InBody(pc: Pc) {
    pc.Admitting? || pc.Cleared? || pc.Preparing? || pc.Running? || pc.Started? || pc.InFlight?
  }

  predicate InFinal(pc: Pc) {
    pc.Finishing? || pc.Fencing? || pc.Sealing?
  }

  function With(s: State, p: Pid, proc: Proc): State {
    s.(procs := s.procs[p := proc])
  }

  predicate At(s: State, p: Pid, pc: Pc) {
    p in s.procs && s.procs[p].pc == pc
  }

  function Owning(s: State, p: Pid): State
    requires p in s.procs
  {
    With(s, p, s.procs[p].(pc := Admitting, owner := true)).(dir := s.dir.(active := Some(p)))
  }

  function Registering(s: State, p: Pid): State
    requires p in s.procs
  {
    With(s, p, s.procs[p].(pc := Preparing, registered := true))
    .(dir := s.dir.(phases := s.dir.phases[s.procs[p].key := p]))
  }

  function Writing(s: State, p: Pid, fence: Fence): State
    requires p in s.procs && s.procs[p].pc.Fencing?
  {
    With(s, p, s.procs[p].(pc := Fencing(s.procs[p].pc.todo - {fence})))
    .(dir := s.dir.(fences := s.dir.fences + {fence}))
  }

  function Sealed(s: State, p: Pid, admissionIssues: bool, receipts: Receipts): State
    requires p in s.procs
  {
    var seal := Seal(s.procs[p].issues, admissionIssues, receipts);
    With(s, p, s.procs[p].(pc := Exiting)).(dir := s.dir.(seals := s.dir.seals[s.procs[p].key := seal]))
  }

  function Leaving(s: State, p: Pid): State
    requires p in s.procs
  {
    With(s, p, s.procs[p].(pc := Done)).(dir := if s.procs[p].owner then s.dir.(active := None) else s.dir)
  }

  /** The steps of a process between its file operations in the campaign directory. */
  function ApplyLocal(s: State, a: Action): (r: Option<State>)
    ensures r.Some? ==> r.value.dir == s.dir
  {
    match a
    case Spawn(p, key) =>
      if p !in s.procs && (key.stage.Smoke? || key.tag == 0)
      then Some(With(s, p, Proc(key, Begin, false, false, {}, false, 0, 0))) else None
    case SaveStarted(p) =>
      if At(s, p, Running) && s.procs[p].issues == {} && s.procs[p].attempts < Slots(s.procs[p].key.stage)
      then Some(With(s, p, s.procs[p].(pc := Started, rawMissing := true, attempts := s.procs[p].attempts + 1)))
      else None
    case RefuseLaunch(p) =>
      if At(s, p, Started)
      then Some(With(s, p, s.procs[p].(pc := Running, issues := s.procs[p].issues + {Deadline}))) else None
    case Launch(p) =>
      if At(s, p, Started)
      then Some(With(s, p, s.procs[p].(pc := InFlight, launches := s.procs[p].launches + 1))) else None
    case Retain(p, found) =>
      if At(s, p, InFlight)
      then Some(With(s, p, s.procs[p].(pc := Running, rawMissing := false, issues := s.procs[p].issues + found)))
      else None
    case Grade(p, found) =>
      if At(s, p, Running) && (s.procs[p].issues != {} || s.procs[p].attempts == Slots(s.procs[p].key.stage))
      then Some(With(s, p, s.procs[p].(pc := Finishing, issues := s.procs[p].issues + found))) else None
    case Interrupt(p) =>
      if p in s.procs && InBody(s.procs[p].pc)
      then
        var extra := {Interrupted} + (if s.procs[p].rawMissing then {Cleanup} else {});
        Some(With(s, p, s.procs[p].(pc := Finishing, issues := s.procs[p].issues + extra)))
      else None
    case FinalChecks(p, found) =>
      if At(s, p, Finishing)
      then
        var proc := s.procs[p].(issues := s.procs[p].issues + found
                                + (if s.procs[p].attempts < Slots(s.procs[p].key.stage) then {Incomplete} else {}));
        Some(With(s, p, proc.(pc := Fencing(RequiredFences(proc)))))
      else None
    case SaveSummary(p) =>
      if At(s, p, Fencing({})) then Some(With(s, p, s.procs[p].(pc := Sealing))) else None
    case FailFinal(p) =>
      if p in s.procs && InFinal(s.procs[p].pc) then Some(With(s, p, s.procs[p].(pc := Exiting))) else None
    case Crash(p) =>
      if p in s.procs && !s.procs[p].pc.Done? && !s.procs[p].pc.Dead?
      then Some(With(s, p, s.procs[p].(pc := Dead))) else None
    case _ => None
  }

  /** The state after one action, or None when the action is not possible. */
  ghost function Apply(s: State, a: Action): Option<State> {
    match a
    case TryLock(p) =>
      if !At(s, p, Begin) then None
      else if s.dir.active.None?
      then Some(Owning(s, p))
      else Some(With(s, p, s.procs[p].(pc := Finishing, issues := {Admission})))
    case CheckFences(p) =>
      if !At(s, p, Admitting) then None
      else if Clear(s.dir, None, s.procs[p].key.stage.Smoke?) then Some(With(s, p, s.procs[p].(pc := Cleared)))
      else
        var found := iset c | Finds(s.dir, c, None, s.procs[p].key.stage.Smoke?);
        Some(With(s, p, s.procs[p].(pc := Finishing, issues := s.procs[p].issues + (set c: Category | c in found))))
    case TryRegister(p) =>
      if !At(s, p, Cleared) then None
      else if s.procs[p].key in s.dir.phases
      then Some(With(s, p, s.procs[p].(pc := Finishing, issues := s.procs[p].issues + {Collector})))
      else Some(Registering(s, p))
    case Prepare(p, found) =>
      if !At(s, p, Preparing) then None
      else
        var proc := s.procs[p];
        var blocked := proc.key.stage.Comparison? && !Clear(s.dir, Some(proc.key), false);
        var issues := proc.issues + found + (if blocked then {Prerequisite} else {});
        Some(With(s, p, proc.(pc := if issues == {} then Running else Finishing, issues := issues)))
    case FenceOne(p, fence) =>
      if p in s.procs && s.procs[p].pc.Fencing? && fence in s.procs[p].pc.todo
      then Some(Writing(s, p, fence)) else None
    case SaveSeal(p, admissionIssues, receipts) =>
      if !At(s, p, Sealing) then None
      else if !s.procs[p].registered then Some(With(s, p, s.procs[p].(pc := Exiting)))
      else if s.procs[p].key in s.dir.seals then None
      else Some(Sealed(s, p, admissionIssues, receipts))
    case Exit(p) =>
      if At(s, p, Exiting) then Some(Leaving(s, p)) else None
    case RemoveStaleLock =>
      if s.dir.active.Some? && s.dir.active.value in s.procs && s.procs[s.dir.active.value].pc.Dead?
      then Some(s.(dir := s.dir.(active := None))) else None
    case _ => ApplyLocal(s, a)
  }

  function Empty(): State {
    State(Dir(None, map[], map[], {}), map[])
  }

  ghost function RunFrom(s: State, actions: seq<Action>): Option<State> {
    if actions == [] then Some(s)
    else
      match RunFrom(s, actions[..|actions| - 1])
      case None => None
      case Some(t) => Apply(t, actions[|actions| - 1])
  }

  /** The state after a run on a new campaign directory. */
  ghost function Run(actions: seq<Action>): Option<State> {
    RunFrom(Empty(), actions)
  }

  // ----- the invariant ------------------------------------------------------------------------

  predicate Live(proc: Proc) {
    !proc.pc.Done? && !proc.pc.Dead?
  }

  predicate Ended(proc: Proc) {
    proc.pc.Done? || proc.pc.Dead?
  }

  /** The fence check is passed and the body is not left. */
  predicate Admitted(proc: Proc) {
    proc.pc.Cleared? || proc.pc.Preparing? || proc.pc.Running? || proc.pc.Started? || proc.pc.InFlight?
  }

  predicate AfterSeal(proc: Proc) {
    proc.pc.Exiting? || proc.pc.Done? || proc.pc.Dead?
  }

  /** The lock file names the one live owner, or a crashed one. */
  ghost predicate LockOk(s: State) {
    && (forall p | p in s.procs && s.procs[p].owner && Live(s.procs[p]) :: s.dir.active == Some(p))
    && (s.dir.active.Some? ==> s.dir.active.value in s.procs && s.procs[s.dir.active.value].owner)
  }

  ghost predicate ProcOk(proc: Proc) {
    && (InBody(proc.pc) || proc.registered ==> proc.owner)
    && (proc.pc.Preparing? || proc.pc.Running? || proc.pc.Started? || proc.pc.InFlight? || proc.launches > 0
        ==> proc.registered)
    && (proc.registered ==> !proc.pc.Begin? && !proc.pc.Admitting? && !proc.pc.Cleared?)
    && proc.launches + (if proc.pc.Started? then 1 else 0) <= proc.attempts <= Slots(proc.key.stage)
  }

  ghost predicate ProcsOk(s: State) {
    forall p | p in s.procs :: ProcOk(s.procs[p])
  }

  /** Registrations and registered processes are the same relation. */
  ghost predicate PhasesOk(s: State) {
    && (forall p | p in s.procs && s.procs[p].registered ::
          s.procs[p].key in s.dir.phases && s.dir.phases[s.procs[p].key] == p)
    && (forall key | key in s.dir.phases ::
          s.dir.phases[key] in s.procs && s.procs[s.dir.phases[key]].registered && s.procs[s.dir.phases[key]].key == key)
  }

  /** Required fences are written before the summary is sealed. */
  ghost predicate FencesOk(s: State) {
    forall p | p in s.procs ::
      && (s.procs[p].pc.Fencing? ==> RequiredFences(s.procs[p]) <= s.dir.fences + s.procs[p].pc.todo)
      && (s.procs[p].pc.Sealing? ==> RequiredFences(s.procs[p]) <= s.dir.fences)
  }

  ghost predicate SealsOk(s: State) {
    forall key | key in s.dir.seals ::
      && key in s.dir.phases && s.dir.phases[key] in s.procs
      && var proc := s.procs[s.dir.phases[key]];
         AfterSeal(proc) && s.dir.seals[key].issues == proc.issues && RequiredFences(proc) <= s.dir.fences
  }

  /** Every other registration is sealed without findings for an admitted process. */
  ghost predicate AdmissionOk(s: State) {
    forall p, key | p in s.procs && Admitted(s.procs[p]) && key in s.dir.phases && s.dir.phases[key] != p ::
      PhaseFindings(s.dir, key, s.procs[p].key.stage.Smoke?) == {}
  }

  ghost predicate Inv(s: State) {
    LockOk(s) && ProcsOk(s) && PhasesOk(s) && FencesOk(s) && SealsOk(s) && AdmissionOk(s)
  }

  /** What a step of process `p` that leaves the directory alone may do to it. */
  ghost predicate LocalStep(s: State, p: Pid, after: Proc) {
    && p in s.procs && Live(s.procs[p])
    && var before := s.procs[p];
       && after.key == before.key && after.owner == before.owner && after.registered == before.registered
       && ProcOk(after)
       && (Admitted(after) ==> Admitted(before))
       && (AfterSeal(before) ==> AfterSeal(after) && after.issues == before.issues)
       && (after.pc.Fencing? ==> RequiredFences(after) <= s.dir.fences + after.pc.todo)
       && (after.pc.Sealing? ==> RequiredFences(after) <= s.dir.fences)
  }

  lemma LocalKeepsInv(s: State, p: Pid, after: Proc)
    requires Inv(s) && LocalStep(s, p, after)
    ensures Inv(With(s, p, after))
  {
    LocalSeals(s, p, after);
    LocalFences(s, p, after);
    hide PhaseFindings, ProcOk, RequiredFences, SealsOk, FencesOk;
    var t := With(s, p, after);
    assert LockOk(t) && PhasesOk(t);
    assert ProcsOk(t);
    assert AdmissionOk(t);
  }

  lemma LocalFences(s: State, p: Pid, after: Proc)
    requires FencesOk(s) && LocalStep(s, p, after)
    ensures FencesOk(With(s, p, after))
  {
    hide RequiredFences, ProcOk;
  }

  lemma LocalSeals(s: State, p: Pid, after: Proc)
    requires SealsOk(s) && LocalStep(s, p, after)
    ensures SealsOk(With(s, p, after))
  {
    hide RequiredFences, ProcOk;
    if AfterSeal(s.procs[p]) {
      SameRequired(s.procs[p], after);
    }
  }

  lemma SameRequired(a: Proc, b: Proc)
    requires a.key == b.key && a.issues == b.issues && a.registered == b.registered
    ensures RequiredFences(a) == RequiredFences(b)
  {
  }

  lemma SpawnKeepsInv(s: State, p: Pid, key: Key)
    requires Inv(s) && p !in s.procs
    ensures Inv(With(s, p, Proc(key, Begin, false, false, {}, false, 0, 0)))
  {
    hide PhaseFindings, RequiredFences;
  }

  lemma LockKeepsInv(s: State, p: Pid)
    requires Inv(s) && At(s, p, Begin) && s.dir.active.None?
    ensures Inv(Owning(s, p))
  {
    var t := Owning(s, p);
    assert ProcOk(s.procs[p]) && !s.procs[p].registered;
    FindingsSame(s.dir, t.dir);
    hide RequiredFences, PhaseFindings;
    assert SealsOk(t) && AdmissionOk(t);
  }

  /** Phase findings are read off the seals. */
  lemma FindingsSame(a: Dir, b: Dir)
    requires a.seals == b.seals
    ensures forall key, d :: PhaseFindings(a, key, d) == PhaseFindings(b, key, d)
  {
  }

  lemma ClearMeansHarmless(dir: Dir, d: bool, key: Key)
    requires Clear(dir, None, d) && key in dir.phases
    ensures PhaseFindings(dir, key, d) == {}
  {
    hide PhaseFindings;
    forall c ensures c !in PhaseFindings(dir, key, d) {
      assert !Finds(dir, c, None, d);
    }
  }

  /** A process passes the fence check only when every registration is sealed and harmless to it. */
  lemma ClearKeepsInv(s: State, p: Pid)
    requires Inv(s) && At(s, p, Admitting) && Clear(s.dir, None, s.procs[p].key.stage.Smoke?)
    ensures Inv(With(s, p, s.procs[p].(pc := Cleared)))
  {
    hide PhaseFindings, RequiredFences, Clear;
    var t := With(s, p, s.procs[p].(pc := Cleared));
    forall key | key in s.dir.phases ensures PhaseFindings(s.dir, key, s.procs[p].key.stage.Smoke?) == {} {
      ClearMeansHarmless(s.dir, s.procs[p].key.stage.Smoke?, key);
    }
    assert ProcOk(s.procs[p]);
    assert LockOk(t) && PhasesOk(t) && FencesOk(t) && SealsOk(t);
  }

  /** Two live owners are one process. */
  lemma OneLiveOwner(s: State, p: Pid, q: Pid)
    requires LockOk(s) && p in s.procs && q in s.procs
    requires s.procs[p].owner && Live(s.procs[p]) && s.procs[q].owner && Live(s.procs[q])
    ensures p == q
  {
  }

  /** While a live owner is past its body, no process is admitted. */
  lemma NoneAdmitted(s: State, p: Pid)
    requires LockOk(s) && ProcsOk(s) && p in s.procs && s.procs[p].owner && Live(s.procs[p]) && !Admitted(s.procs[p])
    ensures forall q | q in s.procs :: !Admitted(s.procs[q])
  {
    forall q | q in s.procs ensures !Admitted(s.procs[q]) {
      if Admitted(s.procs[q]) {
        assert ProcOk(s.procs[q]);
        OneLiveOwner(s, p, q);
      }
    }
  }

  lemma OnlyAdmitted(s: State, p: Pid)
    requires LockOk(s) && ProcsOk(s) && p in s.procs && s.procs[p].owner && Live(s.procs[p])
    ensures forall q | q in s.procs && Admitted(s.procs[q]) :: q == p
  {
    forall q | q in s.procs && Admitted(s.procs[q]) ensures q == p {
      assert ProcOk(s.procs[q]);
      OneLiveOwner(s, p, q);
    }
  }

  lemma RegisterKeepsInv(s: State, p: Pid)
    requires Inv(s) && At(s, p, Cleared) && s.procs[p].key !in s.dir.phases
    ensures Inv(Registering(s, p))
  {
    var t := Registering(s, p);
    assert ProcOk(s.procs[p]);
    OnlyAdmitted(s, p);
    FindingsSame(s.dir, t.dir);
    RegisterPhases(s, p);
    RegisterSeals(s, p);
    RegisterProcs(s, p);
    hide RequiredFences, PhaseFindings, PhasesOk, SealsOk, LockOk, ProcsOk, FencesOk;
    assert AdmissionOk(t);
  }

  lemma RegisterProcs(s: State, p: Pid)
    requires LockOk(s) && ProcsOk(s) && FencesOk(s) && At(s, p, Cleared)
    ensures LockOk(Registering(s, p)) && ProcsOk(Registering(s, p)) && FencesOk(Registering(s, p))
  {
    hide RequiredFences;
    assert ProcOk(s.procs[p]);
  }

  lemma RegisterPhases(s: State, p: Pid)
    requires PhasesOk(s) && At(s, p, Cleared) && s.procs[p].key !in s.dir.phases
    ensures PhasesOk(Registering(s, p))
  {
  }

  lemma RegisterSeals(s: State, p: Pid)
    requires SealsOk(s) && At(s, p, Cleared) && s.procs[p].key !in s.dir.phases
    ensures SealsOk(Registering(s, p))
  {
    hide RequiredFences;
  }

  lemma FenceKeepsInv(s: State, p: Pid, fence: Fence)
    requires Inv(s) && p in s.procs && s.procs[p].pc.Fencing? && fence in s.procs[p].pc.todo
    ensures Inv(Writing(s, p, fence))
  {
    var t := Writing(s, p, fence);
    assert ProcOk(s.procs[p]);
    SameRequired(s.procs[p], t.procs[p]);
    FindingsSame(s.dir, t.dir);
    hide RequiredFences, PhaseFindings;
    assert LockOk(t) && ProcsOk(t) && PhasesOk(t);
    assert FencesOk(t);
    assert SealsOk(t);
    assert AdmissionOk(t);
  }

  lemma SealKeepsInv(s: State, p: Pid, admissionIssues: bool, receipts: Receipts)
    requires Inv(s) && At(s, p, Sealing) && s.procs[p].registered && s.procs[p].key !in s.dir.seals
    ensures Inv(Sealed(s, p, admissionIssues, receipts))
  {
    var t := Sealed(s, p, admissionIssues, receipts);
    assert ProcOk(s.procs[p]);
    SameRequired(s.procs[p], t.procs[p]);
    NoneAdmitted(s, p);
    hide RequiredFences, PhaseFindings;
    assert LockOk(t) && ProcsOk(t);
    assert PhasesOk(t);
    assert FencesOk(t);
    assert SealsOk(t);
    assert forall q | q in t.procs :: !Admitted(t.procs[q]);
  }

  lemma ExitKeepsInv(s: State, p: Pid)
    requires Inv(s) && At(s, p, Exiting)
    ensures Inv(Leaving(s, p))
  {
    var t := With(s, p, s.procs[p].(pc := Done));
    assert ProcOk(s.procs[p]);
    LocalKeepsInv(s, p, s.procs[p].(pc := Done));
    if s.procs[p].owner {
      forall q | q in t.procs && t.procs[q].owner ensures !Live(t.procs[q]) {
        if Live(t.procs[q]) {
          OneLiveOwner(s, p, q);
        }
      }
      UnlockKeepsInv(t);
    }
  }

  /** Without a live owner the lock file can go. */
  lemma UnlockKeepsInv(s: State)
    requires Inv(s) && forall q | q in s.procs && s.procs[q].owner :: !Live(s.procs[q])
    ensures Inv(s.(dir := s.dir.(active := None)))
  {
    FindingsSame(s.dir, s.dir.(active := None));
    hide RequiredFences, PhaseFindings, ProcOk;
  }

  lemma StaleLockKeepsInv(s: State)
    requires Inv(s) && s.dir.active.Some? && s.dir.active.value in s.procs && s.procs[s.dir.active.value].pc.Dead?
    ensures Inv(s.(dir := s.dir.(active := None)))
  {
    hide ProcsOk, PhasesOk, FencesOk, SealsOk, AdmissionOk;
    UnlockKeepsInv(s);
  }

  /** The actions that change one process and no file. */
  predicate IsLocal(a: Action) {
    a.Prepare? || a.SaveStarted? || a.RefuseLaunch? || a.Launch? || a.Retain? || a.Grade? || a.Interrupt?
    || a.FinalChecks? || a.SaveSummary? || a.FailFinal? || a.Crash?
  }

  predicate IsFinal(a: Action) {
    a.FinalChecks? || a.SaveSummary? || a.FailFinal? || a.Crash?
  }

  lemma BodyActionIsLocal(s: State, a: Action)
    requires Inv(s) && IsLocal(a) && !IsFinal(a) && Apply(s, a).Some?
    ensures a.p in s.procs && Apply(s, a).value == With(s, a.p, Apply(s, a).value.procs[a.p])
    ensures LocalStep(s, a.p, Apply(s, a).value.procs[a.p])
  {
    hide LockOk, PhasesOk, SealsOk, AdmissionOk, FencesOk, Clear, RequiredFences, Registering, Writing, Sealed, Leaving,
         Owning;
    assert ProcOk(s.procs[a.p]);
  }

  lemma FinalActionIsLocal(s: State, a: Action)
    requires Inv(s) && IsFinal(a) && Apply(s, a).Some?
    ensures a.p in s.procs && Apply(s, a).value == With(s, a.p, Apply(s, a).value.procs[a.p])
    ensures LocalStep(s, a.p, Apply(s, a).value.procs[a.p])
  {
    hide LockOk, PhasesOk, SealsOk, AdmissionOk, Clear, RequiredFences, Registering, Writing, Sealed, Leaving, Owning;
    var after := Apply(s, a).value.procs[a.p];
    assert ProcOk(s.procs[a.p]);
    if a.SaveSummary? {
      SameRequired(s.procs[a.p], after);
      assert s.dir.fences + {} == s.dir.fences;
    } else if a.FinalChecks? {
      SameRequired(after, after.(pc := Finishing));
    }
  }

  lemma RefusalKeepsInv(s: State, p: Pid, issues: set<Category>)
    requires Inv(s) && p in s.procs && (s.procs[p].pc.Begin? || InBody(s.procs[p].pc))
    ensures Inv(With(s, p, s.procs[p].(pc := Finishing, issues := issues)))
  {
    assert ProcOk(s.procs[p]);
    LocalKeepsInv(s, p, s.procs[p].(pc := Finishing, issues := issues));
  }

  lemma StepKeepsInv(s: State, a: Action)
    requires Inv(s) && Apply(s, a).Some?
    ensures Inv(Apply(s, a).value)
  {
    hide Inv, LocalStep, Apply;
    if IsLocal(a) {
      if IsFinal(a) {
        FinalActionIsLocal(s, a);
      } else {
        BodyActionIsLocal(s, a);
      }
      LocalKeepsInv(s, a.p, Apply(s, a).value.procs[a.p]);
    } else {
      FileStepKeepsInv(s, a);
    }
  }

  lemma FileStepKeepsInv(s: State, a: Action)
    requires Inv(s) && !IsLocal(a) && Apply(s, a).Some?
    ensures Inv(Apply(s, a).value)
  {
    hide Inv, LocalStep, Clear;
    var t := Apply(s, a).value;
    if a.Spawn? {
      SpawnKeepsInv(s, a.p, a.key);
    } else if a.RemoveStaleLock? {
      StaleLockKeepsInv(s);
    } else if t == With(s, a.p, t.procs[a.p]) && t.procs[a.p].pc.Finishing? {
      RefusalKeepsInv(s, a.p, t.procs[a.p].issues);
    } else if a.TryLock? {
      LockKeepsInv(s, a.p);
    } else if a.CheckFences? {
      ClearKeepsInv(s, a.p);
    } else if a.TryRegister? {
      RegisterKeepsInv(s, a.p);
    } else if a.FenceOne? {
      FenceKeepsInv(s, a.p, a.fence);
    } else if a.SaveSeal? {
      if s.procs[a.p].registered {
        SealKeepsInv(s, a.p, a.admissionIssues, a.receipts);
      } else {
        UnsealedKeepsInv(s, a.p);
      }
    } else {
      ExitKeepsInv(s, a.p);
    }
  }

  lemma UnsealedKeepsInv(s: State, p: Pid)
    requires Inv(s) && At(s, p, Sealing)
    ensures Inv(With(s, p, s.procs[p].(pc := Exiting)))
  {
    assert ProcOk(s.procs[p]);
    LocalKeepsInv(s, p, s.procs[p].(pc := Exiting));
  }
}
