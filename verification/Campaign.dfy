/**
 The campaign directory (`Campaign`): an exclusive lock file, phase registrations, completion seals and fences.

 Files are created exclusively and never overwritten. Issues are kept by category; reasons, digests and
 evidence references are not modelled.
 */
module CampaignDirectory {
  import opened Wrappers
  import opened Stages

  type Pid = nat

  /** A phase name; `tag` tells smoke outputs apart and is 0 for the other stages. */
  datatype Key = Key(caseId: nat, stage: Stage, tag: nat)

  datatype Category =
    | Identity | Cleanup | ControlFailed | Numerical | Inconclusive | Clock | Unavailable | Admission
    | Prerequisite | Incomplete | Deadline | Storage | Collector | Interrupted

  /** What reading the receipts of a sealed control gives (`numerical_control_only` past its category checks). */
  datatype Receipts = NumericalOnly | OtherIssues | Drifted

  /** The sealed summary of a phase. */
  datatype Seal = Seal(issues: set<Category>, admissionIssues: bool, receipts: Receipts)

  datatype Fence = Fence(category: Category, phase: Key)

  datatype Dir = Dir(active: Option<Pid>, phases: map<Key, Pid>, seals: map<Key, Seal>, fences: set<Fence>)

  datatype Verdict = Yes | No | Broken

  /** `numerical_control_only`: Broken where it raises. */
  function NumericalControl(seal: Seal): Verdict {
    if seal.admissionIssues || seal.issues * {Numerical, Inconclusive} == {}
       || !(seal.issues <= {Numerical, Inconclusive, Incomplete}) then No
    else match seal.receipts
      case NumericalOnly => Yes
      case OtherIssues => No
      case Drifted => Broken
  }

  function ControlVerdict(key: Key, seal: Seal, diagnostic: bool): Verdict {
    if diagnostic && key.stage.Control? then NumericalControl(seal) else No
  }

  /** The findings of one registered phase. */
  function PhaseFindings(dir: Dir, key: Key, diagnostic: bool): set<Category> {
    if key !in dir.seals then {Cleanup}
    else
      var seal := dir.seals[key];
      match ControlVerdict(key, seal, diagnostic)
      case Broken => {Identity}
      case Yes => seal.issues * {Identity, Cleanup}
      case No => if key.stage.Control? then seal.issues else seal.issues * {Identity, Cleanup}
  }

  predicate IsNumericalControl(dir: Dir, key: Key, ignore: Option<Key>, diagnostic: bool) {
    key in dir.phases && Some(key) != ignore && key in dir.seals
    && ControlVerdict(key, dir.seals[key], diagnostic) == Yes
  }

  /** A fence of a numerically failed control does not stop a diagnostic. */
  predicate FenceIgnored(dir: Dir, fence: Fence, ignore: Option<Key>, diagnostic: bool) {
    diagnostic && fence.category == ControlFailed && IsNumericalControl(dir, fence.phase, ignore, diagnostic)
  }

  /** `Campaign.fences` reports category `c`. */
  ghost predicate Finds(dir: Dir, c: Category, ignore: Option<Key>, diagnostic: bool) {
    || (exists key :: key in dir.phases && Some(key) != ignore && c in PhaseFindings(dir, key, diagnostic))
    || (exists fence :: fence in dir.fences && !FenceIgnored(dir, fence, ignore, diagnostic) && c == fence.category)
  }

  ghost predicate Clear(dir: Dir, ignore: Option<Key>, diagnostic: bool) {
    forall c :: !Finds(dir, c, ignore, diagnostic)
  }

  class Campaign {
    var active: Option<Pid>
    var phases: map<Key, Pid>
    var seals: map<Key, Seal>
    var fenceFiles: set<Fence>

    function Value(): Dir
      reads this
    {
      Dir(active, phases, seals, fenceFiles)
    }

    constructor ()
      ensures Value() == Dir(None, map[], map[], {})
    {
      active, phases, seals, fenceFiles := None, map[], map[], {};
    }

    /** The two loops of `fences`, over the registrations and then over the fence files. */
    method Fences(ignore: Option<Key>, diagnostic: bool) returns (failures: set<Category>)
      ensures forall c :: c in failures <==> Finds(Value(), c, ignore, diagnostic)
    {
      failures := {};
      var numericalControls: set<Key> := {};
      ghost var dir := Value();
      var todo := phases.Keys;
      while todo != {}
        invariant todo <= phases.Keys
        invariant forall c :: c in failures <==>
                    exists key :: key in phases.Keys - todo && Some(key) != ignore && c in PhaseFindings(dir, key, diagnostic)
        invariant forall key :: key in numericalControls <==>
                    key !in todo && IsNumericalControl(dir, key, ignore, diagnostic)
      {
        var key :| key in todo;
        todo := todo - {key};
        if Some(key) == ignore {
          continue;
        }
        if key !in seals {
          failures := failures + {Cleanup};
        } else {
          var prior := seals[key];
          var verdict := ControlVerdict(key, prior, diagnostic);
          match verdict
          case Broken =>
            failures := failures + {Identity};
          case Yes =>
            numericalControls := numericalControls + {key};
            failures := failures + prior.issues * {Identity, Cleanup};
          case No =>
            failures := failures + if key.stage.Control? then prior.issues else prior.issues * {Identity, Cleanup};
        }
      }
      var files := fenceFiles;
      ghost var fromPhases := failures;
      while files != {}
        invariant files <= fenceFiles
        invariant forall c :: c in failures <==>
                    c in fromPhases
                    || exists fence :: fence in fenceFiles - files && !FenceIgnored(dir, fence, ignore, diagnostic)
                                       && c == fence.category
      {
        var fence :| fence in files;
        files := files - {fence};
        if diagnostic && fence.category == ControlFailed && fence.phase in numericalControls {
          continue;
        }
        failures := failures + {fence.category};
      }
    }

    method WriteFence(category: Category, phase: Key)
      modifies this`fenceFiles
      ensures Value() == old(Value()).(fences := old(fenceFiles) + {Fence(category, phase)})
    {
      fenceFiles := fenceFiles + {Fence(category, phase)};
    }

    /** Exclusive creation of the lock file. */
    method Lock(pid: Pid) returns (owner: bool)
      modifies this`active
      ensures owner <==> old(active) == None
      ensures Value() == old(Value()).(active := if owner then Some(pid) else old(active))
    {
      owner := active.None?;
      if owner {
        active := Some(pid);
      }
    }

    method Unlock()
      modifies this`active
      ensures Value() == old(Value()).(active := None)
    {
      active := None;
    }

    /** Exclusive creation of a registration. */
    method Register(key: Key, pid: Pid) returns (created: bool)
      modifies this`phases
      ensures created <==> key !in old(phases)
      ensures Value() == if created then old(Value()).(phases := old(phases)[key := pid]) else old(Value())
    {
      created := key !in phases;
      if created {
        phases := phases[key := pid];
      }
    }

    method Complete(key: Key, seal: Seal)
      requires key !in seals
      modifies this`seals
      ensures Value() == old(Value()).(seals := old(seals)[key := seal])
    {
      seals := seals[key := seal];
    }
  }
}
