/** What the fence check finds, and whom it admits, as conditions on the files of the campaign directory. */
module CampaignAdmission {
  import opened Wrappers
  import opened CampaignDirectory
  import opened Stages

  /** A control that failed on numbers alone. */
  predicate NumericalSeal(seal: Seal) {
    && !seal.admissionIssues && (Numerical in seal.issues || Inconclusive in seal.issues)
    && (forall c | c in seal.issues :: c == Numerical || c == Inconclusive || c == Incomplete)
    && seal.receipts == NumericalOnly
  }

  /** The same summary, but its receipts are not those that were sealed. */
  predicate DriftedSeal(seal: Seal) {
    NumericalSeal(seal.(receipts := NumericalOnly)) && seal.receipts == Drifted
  }

  /** A registered phase makes the fence check report category `c`. */
  predicate PhaseReports(dir: Dir, key: Key, c: Category, diagnostic: bool) {
    if key !in dir.seals then c == Cleanup
    else
      var seal := dir.seals[key];
      if diagnostic && key.stage.Control? && NumericalSeal(seal) then false
      else if diagnostic && key.stage.Control? && DriftedSeal(seal) then c == Identity
      else c in seal.issues && (key.stage.Control? || c == Identity || c == Cleanup)
  }

  /** A control-failed fence of a registered control that failed on numbers alone, for a diagnostic. */
  predicate Excused(dir: Dir, fence: Fence, ignore: Option<Key>, diagnostic: bool) {
    && diagnostic && fence.category == ControlFailed
    && fence.phase in dir.phases && Some(fence.phase) != ignore && fence.phase.stage.Control?
    && fence.phase in dir.seals && NumericalSeal(dir.seals[fence.phase])
  }

  lemma VerdictOn(seal: Seal)
    ensures NumericalControl(seal) == Yes <==> NumericalSeal(seal)
    ensures NumericalControl(seal) == Broken <==> DriftedSeal(seal)
  {
    if seal.issues * {Numerical, Inconclusive} == {} {
      assert Numerical !in seal.issues by {
        assert Numerical in seal.issues ==> Numerical in seal.issues * {Numerical, Inconclusive};
      }
      assert Inconclusive in seal.issues ==> Inconclusive in seal.issues * {Numerical, Inconclusive};
    } else {
      var c :| c in seal.issues * {Numerical, Inconclusive};
    }
  }

  lemma FindingsAre(dir: Dir, key: Key, c: Category, diagnostic: bool)
    ensures c in PhaseFindings(dir, key, diagnostic) <==> PhaseReports(dir, key, c, diagnostic)
  {
    if key in dir.seals {
      VerdictOn(dir.seals[key]);
    }
  }

  lemma ExcusedIs(dir: Dir, fence: Fence, ignore: Option<Key>, diagnostic: bool)
    ensures FenceIgnored(dir, fence, ignore, diagnostic) <==> Excused(dir, fence, ignore, diagnostic)
  {
    if fence.phase in dir.seals {
      VerdictOn(dir.seals[fence.phase]);
    }
  }

  /** The fence check reports exactly what some registered phase or some fence file that is not excused reports. */
  lemma FindsExactly(dir: Dir, c: Category, ignore: Option<Key>, diagnostic: bool)
    ensures Finds(dir, c, ignore, diagnostic) <==>
            || (exists key :: key in dir.phases && Some(key) != ignore && PhaseReports(dir, key, c, diagnostic))
            || (exists fence :: fence in dir.fences && !Excused(dir, fence, ignore, diagnostic) && c == fence.category)
  {
    hide PhaseFindings, PhaseReports, FenceIgnored, Excused;
    forall key ensures c in PhaseFindings(dir, key, diagnostic) <==> PhaseReports(dir, key, c, diagnostic) {
      FindingsAre(dir, key, c, diagnostic);
    }
    forall fence ensures FenceIgnored(dir, fence, ignore, diagnostic) <==> Excused(dir, fence, ignore, diagnostic) {
      ExcusedIs(dir, fence, ignore, diagnostic);
    }
  }

  /** A phase that stops nobody: sealed, a control without issues, any other phase without identity or cleanup issues. */
  predicate Harmless(dir: Dir, key: Key, diagnostic: bool) {
    && key in dir.seals
    && var issues := dir.seals[key].issues;
       if key.stage.Control? then issues == {} || (diagnostic && NumericalSeal(dir.seals[key]))
       else Identity !in issues && Cleanup !in issues
  }

  lemma HarmlessReports(dir: Dir, key: Key, diagnostic: bool)
    ensures Harmless(dir, key, diagnostic) <==> forall c :: !PhaseReports(dir, key, c, diagnostic)
  {
    if key !in dir.seals {
      assert PhaseReports(dir, key, Cleanup, diagnostic);
    } else {
      var seal := dir.seals[key];
      if !Harmless(dir, key, diagnostic) {
        if diagnostic && key.stage.Control? && DriftedSeal(seal) {
          assert PhaseReports(dir, key, Identity, diagnostic);
        } else if key.stage.Control? {
          var c :| c in seal.issues;
          assert PhaseReports(dir, key, c, diagnostic);
        } else {
          assert PhaseReports(dir, key, Identity, diagnostic) || PhaseReports(dir, key, Cleanup, diagnostic);
        }
      }
    }
  }

  /** The check admits exactly when every other registered phase is harmless and every fence file is excused. */
  lemma AdmittedIff(dir: Dir, ignore: Option<Key>, diagnostic: bool)
    ensures Clear(dir, ignore, diagnostic) <==>
            && (forall key | key in dir.phases && Some(key) != ignore :: Harmless(dir, key, diagnostic))
            && (forall fence | fence in dir.fences :: Excused(dir, fence, ignore, diagnostic))
  {
    hide PhaseReports, Harmless, Excused, Finds;
    forall c ensures Finds(dir, c, ignore, diagnostic) <==>
                     || (exists key :: key in dir.phases && Some(key) != ignore && PhaseReports(dir, key, c, diagnostic))
                     || (exists fence :: fence in dir.fences && !Excused(dir, fence, ignore, diagnostic) && c == fence.category)
    {
      FindsExactly(dir, c, ignore, diagnostic);
    }
    forall key ensures Harmless(dir, key, diagnostic) <==> forall c :: !PhaseReports(dir, key, c, diagnostic) {
      HarmlessReports(dir, key, diagnostic);
    }
    if Clear(dir, ignore, diagnostic) {
      forall key, c | key in dir.phases && Some(key) != ignore ensures !PhaseReports(dir, key, c, diagnostic) {
        assert !Finds(dir, c, ignore, diagnostic);
      }
      forall fence | fence in dir.fences ensures Excused(dir, fence, ignore, diagnostic) {
        assert !Finds(dir, fence.category, ignore, diagnostic);
      }
    }
  }

  /**
   A diagnostic is admitted exactly when every registered phase is sealed, controls have no issues or failed on numbers
   alone, other phases have no identity or cleanup issue, and every fence is that of a control which failed on numbers.
   */
  lemma DiagnosticAdmittedIff(dir: Dir)
    ensures Clear(dir, None, true) <==>
            && (forall key | key in dir.phases :: key in dir.seals)
            && (forall key | key in dir.phases && key.stage.Control? ::
                  dir.seals[key].issues == {} || NumericalSeal(dir.seals[key]))
            && (forall key | key in dir.phases && !key.stage.Control? ::
                  Identity !in dir.seals[key].issues && Cleanup !in dir.seals[key].issues)
            && (forall fence | fence in dir.fences ::
                  fence.category == ControlFailed && fence.phase in dir.phases && fence.phase.stage.Control?
                  && NumericalSeal(dir.seals[fence.phase]))
  {
    hide NumericalSeal, Clear;
    AdmittedIff(dir, None, true);
    if Clear(dir, None, true) {
      assert forall key | key in dir.phases :: Harmless(dir, key, true);
    }
  }

  /** A qualification is admitted exactly without fences and past phases that are sealed, controls without any issue. */
  lemma QualificationAdmittedIff(dir: Dir, ignore: Option<Key>)
    ensures Clear(dir, ignore, false) <==>
            && dir.fences == {}
            && (forall key | key in dir.phases && Some(key) != ignore :: key in dir.seals)
            && (forall key | key in dir.phases && Some(key) != ignore && key.stage.Control? :: dir.seals[key].issues == {})
            && (forall key | key in dir.phases && Some(key) != ignore && !key.stage.Control? ::
                  Identity !in dir.seals[key].issues && Cleanup !in dir.seals[key].issues)
  {
    hide Clear;
    AdmittedIff(dir, ignore, false);
    if Clear(dir, ignore, false) {
      assert forall key | key in dir.phases && Some(key) != ignore :: Harmless(dir, key, false);
    }
  }
}
