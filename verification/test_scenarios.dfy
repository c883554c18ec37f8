/**
 * Scenarios taken from the builder's unit tests and from the gate's
 * deferral rule, stated over the model.
 */
module TestScenarios {
  import opened Wrappers
  import opened ItemLists
  import opened Subscription
  import opened RestoreInfo
  import opened RestoreInfoBuilder
  import opened NuGet

  const DefiningProject: Metadata := [
    ("DefiningProjectDirectory", "C:\\Test\\Projects\\TestProj"),
    ("DefiningProjectFullPath", "C:\\Test\\Projects\\TestProj\\TestProj.csproj")]

  /**
   * The update of the test with changes, abbreviated: one configuration with
   * four of its properties (the two `Build` reads among them), two packages
   * and one project reference, each keeping its defining-project metadata
   * and, for packages, its version.
   */
  function UpdateWithChanges(): Update {
    Update(map[
      ConfigurationGeneralRule := RuleChange(
        RuleSnapshot(map[
          BaseIntermediateOutputPathProperty := Some("obj\\"),
          TargetFrameworkMonikerProperty := Some(".NETCoreApp,Version=v1.0"),
          "TargetFrameworkIdentifier" := Some(".NETCoreApp"),
          "Configuration" := Some("Debug")], []),
        RuleDifference({}, false)),
      PackageReferenceRule := RuleChange(
        RuleSnapshot(map[], [
          ("Microsoft.NETCore.Sdk", DefiningProject + [("Version", "1.0.0-alpha-20161007-5")]),
          ("Microsoft.NETCore.App", DefiningProject + [("Version", "1.0.1")])]),
        RuleDifference({}, false)),
      ProjectReferenceRule := RuleChange(
        RuleSnapshot(map[], [("..\\TestLib\\TestLib.csproj", DefiningProject)]),
        RuleDifference({}, true))])
  }

  /**
   * Building from that update gives base path `obj\` and exactly one target
   * framework, found by position and by its moniker, with two package and
   * one project reference; an unknown moniker finds nothing.
   */
  lemma BuildTestExample()
    ensures var r := BuildSpec([UpdateWithChanges()]);
      && r.Ok?
      && r.value.baseIntermediatePath == Some("obj\\")
      && |r.value.targetFrameworks| == 1
      && var frameworks := r.value.targetFrameworks;
         && Lookup(frameworks, FrameworkName, ByName(".NETCoreApp,Version=v1.0")) == Some(frameworks[0])
         && Lookup(frameworks, FrameworkName, ByPosition(0)) == Some(frameworks[0])
         && Lookup(frameworks, FrameworkName, ByName("InvalidFrameworkMoniker")) == None
         && frameworks[0].targetFrameworkMoniker == Some(".NETCoreApp,Version=v1.0")
         && |frameworks[0].packageReferences| == 2
         && |frameworks[0].projectReferences| == 1
  {
    var u := UpdateWithChanges();
    assert [u][..0] == [];
    assert Lookup([], FrameworkName, ByName(".NETCoreApp,Version=v1.0")) == None;
  }

  /**
   * A failed batch with changes, then two successful batches without
   * changes: only the second batch is built, whatever the flag was before.
   */
  lemma DeferredChangeNominatedOnce(pending: bool)
    ensures var batches := [Signals(true, true), Signals(false, false), Signals(false, false)];
      && !BuildsAt(pending, batches, 0)
      && BuildsAt(pending, batches, 1)
      && !BuildsAt(pending, batches, 2)
      && !PendingAfter(pending, batches)
  {
    var batches := [Signals(true, true), Signals(false, false), Signals(false, false)];
    assert batches[..0] == [];
    assert batches[..1][..0] == [];
    assert batches[..2][..1] == batches[..1];
    assert batches[..3] == batches;
    assert batches[..3][..2] == batches[..2];
  }

  /** A rule change with no difference. */
  function Unchanged(after: RuleSnapshot): RuleChange {
    RuleChange(after, RuleDifference({}, false))
  }

  /** The update of the test without changes: three rules, none reporting a change. */
  function UpdateWithoutChanges(): Update {
    var empty := RuleSnapshot(map[], []);
    Update(map[
      ConfigurationGeneralRule := Unchanged(empty),
      PackageReferenceRule := Unchanged(empty),
      ProjectReferenceRule := Unchanged(empty)])
  }

  /**
   * A batch without changes and a clear flag yields null and leaves the flag
   * clear (that update also lacks the compiler rule, so it counts as failed).
   */
  lemma NoChangesReturnsNull()
    ensures var batch := [UpdateWithoutChanges()];
      && AnyDesignTimeBuildFailure(batch)
      && !AnyChangesToNominate(batch)
      && Decide(false, AnyDesignTimeBuildFailure(batch), AnyChangesToNominate(batch)) == Decision(false, false)
  {
    var batch := [UpdateWithoutChanges()];
    assert HasDesignTimeBuildFailure(batch[0]);
  }

  /**
   * `Build` itself does not return null for that update: its
   * ConfigurationGeneral rule has no properties, so reading the base path
   * property throws.
   */
  lemma NoChangesBuildThrows()
    ensures BuildSpec([UpdateWithoutChanges()]) == Err(MissingProperty(BaseIntermediateOutputPathProperty))
  {
    assert [UpdateWithoutChanges()][..0] == [];
  }

  /** A successful update (the compiler rule has an item) without changes. */
  function QuietSuccessfulUpdate(): Update {
    var compiler := RuleSnapshot(map[], [("/out:obj\\TestProj.dll", [])]);
    var u := UpdateWithChanges();
    Update(map[
      ConfigurationGeneralRule := Unchanged(u.projectChanges[ConfigurationGeneralRule].after),
      PackageReferenceRule := Unchanged(u.projectChanges[PackageReferenceRule].after),
      ProjectReferenceRule := Unchanged(u.projectChanges[ProjectReferenceRule].after),
      CompilerCommandLineArgsRule := Unchanged(compiler)])
  }

  /**
   * A client of the restorer: changes seen during a failed build are
   * nominated at the next successful batch, and only there.
   */
  method DeferredNominationScenario() {
    var restorer := new NuGetRestorer();
    var failing := UpdateWithChanges();
    var quiet := QuietSuccessfulUpdate();
    assert HasDesignTimeBuildFailure(failing) && HasChangesToNominate(failing);
    assert !HasDesignTimeBuildFailure(quiet);
    assert !HasChangesToNominate(quiet);
    assert [quiet][0] == quiet && [failing][0] == failing;

    ghost var history: seq<Signals> := [];

    var first := restorer.GetRestoreInfo([failing]);
    assert first == Ok(None) && restorer.needToNominateRestore;
    PendingAfterSnoc(false, history, SignalsOf([failing]));
    history := history + [SignalsOf([failing])];
    assert restorer.needToNominateRestore == PendingAfter(false, history);

    var second := restorer.GetRestoreInfo([quiet]);
    assert second.Ok? && second.value.Some? && !restorer.needToNominateRestore;
    PendingAfterSnoc(false, history, SignalsOf([quiet]));
    history := history + [SignalsOf([quiet])];
    assert restorer.needToNominateRestore == PendingAfter(false, history);

    var third := restorer.GetRestoreInfo([quiet]);
    assert third == Ok(None) && !restorer.needToNominateRestore;
    PendingAfterSnoc(false, history, SignalsOf([quiet]));
    history := history + [SignalsOf([quiet])];
    assert restorer.needToNominateRestore == PendingAfter(false, history);
  }
}
