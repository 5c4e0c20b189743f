/** The actions of phase processes, performed on the campaign directory. */
module CampaignSteps {
  import opened Wrappers
  import opened CampaignDirectory
  import opened CampaignRuns
  import opened Stages

  /** Everything that runs on one campaign directory, with the actions so far. */
  class Host {
    const campaign: Campaign
    var procs: map<Pid, Proc>
    ghost var performed: seq<Action>

    function Value(): State
      reads this, campaign
    {
      State(campaign.Value(), procs)
    }

    /** The directory and the processes are those of the run. */
    ghost predicate Valid()
      reads this, campaign
    {
      Run(performed) == Some(Value())
    }

    constructor ()
      ensures Valid() && performed == [] && fresh(campaign)
    {
      campaign := new Campaign();
      procs, performed := map[], [];
    }

    /** One action: `done` tells whether it was possible. */
    method Perform(a: Action) returns (done: bool)
      requires Valid()
      modifies this, campaign
      ensures Valid() && performed == old(performed) + if done then [a] else []
      ensures done <==> Run(old(performed) + [a]).Some?
    {
      hide Apply;
      assert (performed + [a])[..|performed|] == performed;
      done := Step(a);
      if done {
        performed := performed + [a];
      }
    }

    method Step(a: Action) returns (done: bool)
      modifies this`procs, campaign
      ensures done <==> Apply(old(Value()), a).Some?
      ensures Value() == if done then Apply(old(Value()), a).value else old(Value())
    {
      hide ApplyLocal, Finds;
      if a.TryLock? || a.Exit? || a.RemoveStaleLock? {
        done := MoveLock(a);
      } else if a.TryRegister? || a.FenceOne? || a.SaveSeal? {
        done := WriteFile(a);
      } else if a.CheckFences? || a.Prepare? {
        done := ReadFences(a);
      } else {
        var next := ApplyLocal(Value(), a);
        done := next.Some?;
        if done {
          procs := next.value.procs;
        }
      }
    }

    /** Entering and leaving the lock, and the operator's removal of a crashed owner's lock file. */
    method MoveLock(a: Action) returns (done: bool)
      requires a.TryLock? || a.Exit? || a.RemoveStaleLock?
      modifies this`procs, campaign
      ensures done <==> Apply(old(Value()), a).Some?
      ensures Value() == if done then Apply(old(Value()), a).value else old(Value())
    {
      match a
      case TryLock(p) =>
        if p !in procs || !procs[p].pc.Begin? {
          return false;
        }
        var owner := campaign.Lock(p);
        if owner {
          procs := procs[p := procs[p].(pc := Admitting, owner := true)];
        } else {
          procs := procs[p := procs[p].(pc := Finishing, issues := {Admission})];
        }
        done := true;
      case Exit(p) =>
        if p !in procs || !procs[p].pc.Exiting? {
          return false;
        }
        if procs[p].owner {
          campaign.Unlock();
        }
        procs := procs[p := procs[p].(pc := Done)];
        done := true;
      case RemoveStaleLock =>
        var active := campaign.active;
        if active.None? || active.value !in procs || !procs[active.value].pc.Dead? {
          return false;
        }
        campaign.Unlock();
        done := true;
    }

    /** Registering a phase, writing a fence and sealing a summary. */
    method WriteFile(a: Action) returns (done: bool)
      requires a.TryRegister? || a.FenceOne? || a.SaveSeal?
      modifies this`procs, campaign
      ensures done <==> Apply(old(Value()), a).Some?
      ensures Value() == if done then Apply(old(Value()), a).value else old(Value())
    {
      match a
      case TryRegister(p) =>
        if p !in procs || !procs[p].pc.Cleared? {
          return false;
        }
        var created := campaign.Register(procs[p].key, p);
        if created {
          procs := procs[p := procs[p].(pc := Preparing, registered := true)];
        } else {
          procs := procs[p := procs[p].(pc := Finishing, issues := procs[p].issues + {Collector})];
        }
        done := true;
      case FenceOne(p, fence) =>
        if p !in procs || !procs[p].pc.Fencing? || fence !in procs[p].pc.todo {
          return false;
        }
        campaign.WriteFence(fence.category, fence.phase);
        procs := procs[p := procs[p].(pc := Fencing(procs[p].pc.todo - {fence}))];
        done := true;
      case SaveSeal(p, admissionIssues, receipts) =>
        if p !in procs || !procs[p].pc.Sealing? {
          return false;
        }
        if procs[p].registered {
          if procs[p].key in campaign.seals {
            return false;
          }
          campaign.Complete(procs[p].key, Seal(procs[p].issues, admissionIssues, receipts));
        }
        procs := procs[p := procs[p].(pc := Exiting)];
        done := true;
    }

    /** The fence check on admission, and the one before a comparison. */
    method ReadFences(a: Action) returns (done: bool)
      requires a.CheckFences? || a.Prepare?
      modifies this`procs
      ensures done <==> Apply(old(Value()), a).Some?
      ensures Value() == if done then Apply(old(Value()), a).value else old(Value())
    {
      hide Finds;
      match a
      case CheckFences(p) =>
        if p !in procs || !procs[p].pc.Admitting? {
          return false;
        }
        var found := campaign.Fences(None, procs[p].key.stage.Smoke?);
        ghost var all := iset c | Finds(campaign.Value(), c, None, procs[p].key.stage.Smoke?);
        assert found == set c: Category | c in all;
        assert found == {} <==> Clear(campaign.Value(), None, procs[p].key.stage.Smoke?);
        if found == {} {
          procs := procs[p := procs[p].(pc := Cleared)];
        } else {
          procs := procs[p := procs[p].(pc := Finishing, issues := procs[p].issues + found)];
        }
        done := true;
      case Prepare(p, found) =>
        if p !in procs || !procs[p].pc.Preparing? {
          return false;
        }
        var proc := procs[p];
        var issues := proc.issues + found;
        if proc.key.stage.Comparison? {
          var failures := campaign.Fences(Some(proc.key), false);
          assert failures == {} <==> Clear(campaign.Value(), Some(proc.key), false);
          if failures != {} {
            issues := issues + {Prerequisite};
          }
        }
        assert proc.issues + found + {} == proc.issues + found;
        procs := procs[p := proc.(pc := if issues == {} then Running else Finishing, issues := issues)];
        done := true;
    }
  }
}
