/**
 * The change gate in front of restore nomination. A batch holds one update
 * per active configuration. Restore info is built only for a batch whose
 * design-time builds all succeeded, and only if something changed; changes
 * seen while a build was failing are remembered in one pending flag and
 * nominated at the next successful batch.
 */
module NuGet {
  import opened Wrappers
  import opened Subscription
  import opened RestoreInfo
  import opened RestoreInfoBuilder

  /**
   * The design-time build of one configuration failed: its compiler command
   * line rule is absent, or that rule has no items after the change.
   */
  predicate HasDesignTimeBuildFailure(update: Update) {
    var change :=
      if CompilerCommandLineArgsRule in update.projectChanges
      then Some(update.projectChanges[CompilerCommandLineArgsRule]) else None;
    if change.None? then true else |change.value.after.items| == 0
  }

  /** Some rule other than the compiler command line rule reports a change. */
  predicate HasChangesToNominate(update: Update) {
    exists rule :: rule in update.projectChanges && rule != CompilerCommandLineArgsRule &&
      update.projectChanges[rule].difference.anyChanges
  }

  /**
   * The set of target frameworks may have changed, so the subscriptions must
   * be relinked: the NuGetRestore rule names one of its three framework
   * properties among its changed properties.
   */
  predicate HasTargetFrameworkChanged(update: Update) {
    if NuGetRestoreRule in update.projectChanges then
      var changedProperties := update.projectChanges[NuGetRestoreRule].difference.changedProperties;
      TargetFrameworksProperty in changedProperties
      || TargetFrameworkProperty in changedProperties
      || TargetFrameworkMonikerProperty in changedProperties
    else false
  }

  /** The three properties of the NuGetRestore rule that govern the set of configurations. */
  const FrameworkProperties: set<string> :=
    {TargetFrameworksProperty, TargetFrameworkProperty, TargetFrameworkMonikerProperty}

  /** Relinking is due exactly when the rule is present and one of the three properties changed. */
  lemma TargetFrameworkChangedIff(update: Update)
    ensures HasTargetFrameworkChanged(update) <==>
      NuGetRestoreRule in update.projectChanges &&
      update.projectChanges[NuGetRestoreRule].difference.changedProperties * FrameworkProperties != {}
  {
    if NuGetRestoreRule in update.projectChanges {
      var changed := update.projectChanges[NuGetRestoreRule].difference.changedProperties;
      if HasTargetFrameworkChanged(update) {
        if TargetFrameworksProperty in changed {
          assert TargetFrameworksProperty in changed * FrameworkProperties;
        } else if TargetFrameworkProperty in changed {
          assert TargetFrameworkProperty in changed * FrameworkProperties;
        } else {
          assert TargetFrameworkMonikerProperty in changed * FrameworkProperties;
        }
      } else {
        assert changed * FrameworkProperties == {};
      }
    }
  }

  /**
   * Changes of the compiler command line rule never count: removing that
   * rule leaves the answer as it is, and an update holding only that rule
   * has nothing to nominate.
   */
  lemma CompilerRuleChangesIgnored(update: Update)
    ensures HasChangesToNominate(update) ==
      HasChangesToNominate(Update(update.projectChanges - {CompilerCommandLineArgsRule}))
    ensures CompilerCommandLineArgsRule in update.projectChanges ==>
      !HasChangesToNominate(Update(map[CompilerCommandLineArgsRule :=
        update.projectChanges[CompilerCommandLineArgsRule]]))
  {
    var rest := update.projectChanges - {CompilerCommandLineArgsRule};
    if HasChangesToNominate(update) {
      var rule :| rule in update.projectChanges && rule != CompilerCommandLineArgsRule &&
        update.projectChanges[rule].difference.anyChanges;
      assert rule in rest;
    }
  }

  /** `updates.Any(HasDesignTimeBuildFailure)`. */
  predicate AnyDesignTimeBuildFailure(updates: seq<Update>) {
    exists i :: 0 <= i < |updates| && HasDesignTimeBuildFailure(updates[i])
  }

  /** `updates.Any(HasChangesToNominate)`. */
  predicate AnyChangesToNominate(updates: seq<Update>) {
    exists i :: 0 <= i < |updates| && HasChangesToNominate(updates[i])
  }

  /** What the gate does with one batch: build or not, and the pending flag afterwards. */
  datatype Decision = Decision(build: bool, pending: bool)

  /** The decision rule of `GetRestoreInfo`. */
  function Decide(pending: bool, failed: bool, changes: bool): (d: Decision)
    ensures failed && !changes ==> !d.build && d.pending == pending
    ensures failed && changes ==> !d.build && d.pending
    ensures !failed && (changes || pending) ==> d.build && !d.pending
    ensures !failed && !changes && !pending ==> !d.build && !d.pending
  {
    if !failed && (changes || pending) then Decision(true, false)
    else Decision(false, pending || (failed && changes))
  }

  /**
   * One configuration whose compiler command line rule is absent, or has no
   * items after the change, blocks the build of the whole batch, and a
   * change already pending stays pending.
   */
  lemma FailedConfigurationBlocksBuild(pending: bool, updates: seq<Update>, i: nat)
    requires i < |updates|
    requires CompilerCommandLineArgsRule !in updates[i].projectChanges ||
      updates[i].projectChanges[CompilerCommandLineArgsRule].after.items == []
    ensures var d := Decide(pending, AnyDesignTimeBuildFailure(updates), AnyChangesToNominate(updates));
      !d.build && (pending ==> d.pending)
  {
    assert HasDesignTimeBuildFailure(updates[i]);
  }

  /**
   * The gate builds a batch exactly when every configuration's compiler
   * command line rule is present with at least one item, and either the
   * flag is set or some configuration reports a change in another rule.
   */
  lemma GateBuildsIff(pending: bool, updates: seq<Update>)
    ensures Decide(pending, AnyDesignTimeBuildFailure(updates), AnyChangesToNominate(updates)).build <==>
      (forall i :: 0 <= i < |updates| ==>
        CompilerCommandLineArgsRule in updates[i].projectChanges &&
        updates[i].projectChanges[CompilerCommandLineArgsRule].after.items != []) &&
      (pending ||
        exists i, rule :: 0 <= i < |updates| && rule in updates[i].projectChanges &&
          rule != CompilerCommandLineArgsRule && updates[i].projectChanges[rule].difference.anyChanges)
  {
    if AnyDesignTimeBuildFailure(updates) {
      var i :| 0 <= i < |updates| && HasDesignTimeBuildFailure(updates[i]);
      assert !(CompilerCommandLineArgsRule in updates[i].projectChanges &&
        updates[i].projectChanges[CompilerCommandLineArgsRule].after.items != []);
    }
    if AnyChangesToNominate(updates) {
      var i :| 0 <= i < |updates| && HasChangesToNominate(updates[i]);
      var rule :| rule in updates[i].projectChanges && rule != CompilerCommandLineArgsRule &&
        updates[i].projectChanges[rule].difference.anyChanges;
    }
  }

  /**
   * The restorer's state: only the flag that remembers changes seen during a
   * failed design-time build.
   */
  class NuGetRestorer {
    var needToNominateRestore: bool

    constructor ()
      ensures !needToNominateRestore
    {
      needToNominateRestore := false;
    }

    /**
     * `GetRestoreInfo`: `Ok(Some(info))` when restore info is built,
     * `Ok(None)` for null, `Err` when `Build` throws. The flag is cleared
     * before `Build` runs, so it stays cleared when `Build` throws.
     */
    method GetRestoreInfo(updates: seq<Update>) returns (r: Result<Option<ProjectRestoreInfo>, BuildError>)
      modifies this
      ensures var d := Decide(old(needToNominateRestore),
        AnyDesignTimeBuildFailure(updates), AnyChangesToNominate(updates));
        needToNominateRestore == d.pending &&
        r == if !d.build then Ok(None)
             else match BuildSpec(updates)
                  case Ok(info) => Ok(Some(info))
                  case Err(e) => Err(e)
      ensures needToNominateRestore == PendingAfter(old(needToNominateRestore), [SignalsOf(updates)])
      ensures BuildsAt(old(needToNominateRestore), [SignalsOf(updates)], 0) <==> r != Ok(None)
    {
      var designTimeBuildFailed := AnyDesignTimeBuildFailure(updates);
      var hasChangesToNominate := AnyChangesToNominate(updates);
      if !designTimeBuildFailed && (hasChangesToNominate || needToNominateRestore) {
        needToNominateRestore := false;
        var built := Build(updates);
        match built {
          case Ok(info) => r := Ok(Some(info));
          case Err(e) => r := Err(e);
        }
        return;
      }
      needToNominateRestore := needToNominateRestore || (designTimeBuildFailed && hasChangesToNominate);
      r := Ok(None);
    }
  }

  /** The two batch-level flags the gate reads. */
  datatype Signals = Signals(failed: bool, changes: bool)

  /** The flags of one batch, as `GetRestoreInfo` computes them. */
  function SignalsOf(updates: seq<Update>): Signals {
    Signals(AnyDesignTimeBuildFailure(updates), AnyChangesToNominate(updates))
  }

  /** The pending flag after the gate has seen `batches`, starting from `pending`. */
  function PendingAfter(pending: bool, batches: seq<Signals>): bool
    decreases |batches|
  {
    if |batches| == 0 then pending
    else
      var last := batches[|batches| - 1];
      Decide(PendingAfter(pending, batches[..|batches| - 1]), last.failed, last.changes).pending
  }

  /** Whether batch `i` of `batches` is built, starting from `pending`. */
  function BuildsAt(pending: bool, batches: seq<Signals>, i: nat): bool
    requires i < |batches|
  {
    Decide(PendingAfter(pending, batches[..i]), batches[i].failed, batches[i].changes).build
  }

  /**
   * Calls compose: the flag after one more batch is the flag the gate
   * computes from the flag after the earlier ones, so successive
   * `GetRestoreInfo` calls follow `PendingAfter` over their batches.
   */
  lemma PendingAfterSnoc(pending: bool, batches: seq<Signals>, next: Signals)
    ensures PendingAfter(pending, batches + [next]) == PendingAfter(PendingAfter(pending, batches), [next])
    ensures BuildsAt(pending, batches + [next], |batches|) == BuildsAt(PendingAfter(pending, batches), [next], 0)
  {
    assert (batches + [next])[..|batches|] == batches;
    assert [next][..0] == [];
  }

  /** The flag stays set through failed batches until a batch is built. */
  lemma {:induction false} PendingKept(pending: bool, batches: seq<Signals>, k: nat, j: nat)
    requires k < j <= |batches|
    requires batches[k].failed && batches[k].changes
    requires forall i :: k < i < j ==> batches[i].failed
    ensures PendingAfter(pending, batches[..j])
    decreases j - k
  {
    var prefix := batches[..j];
    assert prefix[..j - 1] == batches[..j - 1];
    if j - 1 > k {
      PendingKept(pending, batches, k, j - 1);
    }
  }

  /**
   * No change is lost: a change seen at batch `k` is nominated at the first
   * batch `j >= k` whose design-time builds succeeded.
   */
  lemma NoChangeLost(pending: bool, batches: seq<Signals>, k: nat, j: nat)
    requires k <= j < |batches|
    requires batches[k].changes
    requires forall i :: k <= i < j ==> batches[i].failed
    requires !batches[j].failed
    ensures BuildsAt(pending, batches, j)
  {
    if k < j {
      PendingKept(pending, batches, k, j);
    }
  }

  /**
   * Once a batch is built the flag is clear, so a following successful batch
   * without changes is not built: a deferred change is nominated once.
   */
  lemma {:induction false} BuiltOnce(pending: bool, batches: seq<Signals>, j: nat)
    requires j + 1 < |batches|
    requires BuildsAt(pending, batches, j)
    requires !batches[j + 1].changes
    ensures !BuildsAt(pending, batches, j + 1)
  {
    assert batches[..j + 1][..j] == batches[..j];
  }

  /**
   * Every build has a cause: starting from a clear flag, a batch without
   * changes is built only if an earlier failed batch had changes and no
   * batch in between was built.
   */
  lemma {:induction false} BuildHasCause(batches: seq<Signals>, j: nat)
    requires j < |batches|
    requires BuildsAt(false, batches, j) && !batches[j].changes
    ensures exists i ::
      0 <= i < j && batches[i].failed && batches[i].changes &&
      (forall l :: i < l < j ==> !BuildsAt(false, batches, l))
  {
    PendingHasCause(batches, j);
  }

  /** A set flag records an unbuilt change seen during a failed batch. */
  lemma {:induction false} PendingHasCause(batches: seq<Signals>, n: nat)
    requires n <= |batches|
    requires PendingAfter(false, batches[..n])
    ensures exists i ::
      0 <= i < n && batches[i].failed && batches[i].changes &&
      (forall l :: i < l < n ==> !BuildsAt(false, batches, l))
  {
    if n > 0 {
      var prefix := batches[..n];
      assert prefix[..n - 1] == batches[..n - 1];
      var before := PendingAfter(false, batches[..n - 1]);
      var last := batches[n - 1];
      if last.failed && last.changes {
        assert batches[n - 1].failed && batches[n - 1].changes;
      } else {
        assert before && !BuildsAt(false, batches, n - 1);
        PendingHasCause(batches, n - 1);
        var i :| 0 <= i < n - 1 && batches[i].failed && batches[i].changes &&
          (forall l :: i < l < n - 1 ==> !BuildsAt(false, batches, l));
        assert forall l :: i < l < n ==> !BuildsAt(false, batches, l);
      }
    }
  }

  /** The rules the restorer subscribes to for design-time build updates. */
  const DesignTimeBuildWatchedRules: set<string> := {NuGetRestoreRule, ProjectReferenceRule,
    PackageReferenceRule, CompilerCommandLineArgsRule, DotNetCliToolReferenceRule}

  /**
   * `Build` reads the ConfigurationGeneral rule, which is not among the
   * watched rules: a batch whose first update holds watched rules only makes
   * `Build` throw at that rule.
   */
  lemma WatchedRulesOnlyBuildThrows(updates: seq<Update>)
    requires |updates| > 0
    requires forall rule :: rule in updates[0].projectChanges ==> rule in DesignTimeBuildWatchedRules
    ensures BuildSpec(updates) == Err(MissingRule(ConfigurationGeneralRule))
  {
    assert ConfigurationGeneralRule !in DesignTimeBuildWatchedRules;
    assert ConfigurationGeneralRule !in updates[0].projectChanges;
    assert updates[..1][..0] == [];
    BuildErrorPersists(updates, 1);
  }
}
