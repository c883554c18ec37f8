/**
 * What `Build` promises about its result, proved of `BuildSpec` (which the
 * method `RestoreInfoBuilder.Build` computes): the monikers of the result
 * are the distinct monikers of the updates in order of first appearance,
 * each entry comes from the first update naming its moniker, and the base
 * path is the first non-null one.
 */
module BuildProperties {
  import opened Wrappers
  import opened ItemLists
  import opened Subscription
  import opened RestoreInfo
  import opened RestoreInfoBuilder

  /** The moniker of each update, in order (null where it is null or absent). */
  function Monikers(updates: seq<Update>): (ms: seq<Option<string>>)
    ensures |ms| == |updates|
    ensures forall i :: 0 <= i < |updates| ==> ms[i] == Moniker(updates[i])
  {
    seq(|updates|, i requires 0 <= i < |updates| => Moniker(updates[i]))
  }

  /** The monikers of a non-empty list are those of its prefix and then the last one. */
  lemma MonikersLast(updates: seq<Update>)
    requires |updates| > 0
    ensures Monikers(updates) == Monikers(updates[..|updates| - 1]) + [Moniker(updates[|updates| - 1])]
  {
    var n := |updates| - 1;
    assert forall i :: 0 <= i < n ==> updates[..n][i] == updates[i];
  }

  /** The monikers of a list of target frameworks, in order. */
  function FrameworkMonikers(frameworks: seq<TargetFrameworkInfo>): (ms: seq<Option<string>>)
    ensures |ms| == |frameworks|
    ensures forall i :: 0 <= i < |frameworks| ==> ms[i] == frameworks[i].targetFrameworkMoniker
  {
    seq(|frameworks|, i requires 0 <= i < |frameworks| => frameworks[i].targetFrameworkMoniker)
  }

  /** Position `i` holds a null or a moniker that no earlier position holds. */
  predicate IsFirstOccurrence(ms: seq<Option<string>>, i: nat)
    requires i < |ms|
  {
    ms[i].None? || ms[i] !in ms[..i]
  }

  /** The first occurrences of `ms`, in order; every null is kept. */
  function FirstOccurrences(ms: seq<Option<string>>): (r: seq<Option<string>>)
    ensures forall x :: x in r ==> x in ms
    ensures forall x :: x in ms && x.Some? ==> x in r
    decreases |ms|
  {
    if |ms| == 0 then []
    else
      var n := |ms| - 1;
      assert ms == ms[..n] + [ms[n]];
      FirstOccurrences(ms[..n]) + (if IsFirstOccurrence(ms, n) then [ms[n]] else [])
  }

  /** No non-null value occurs twice in `ms`. */
  predicate Distinct(ms: seq<Option<string>>) {
    forall i, j :: 0 <= i < j < |ms| && ms[i].Some? ==> ms[i] != ms[j]
  }

  /** No moniker occurs twice among the first occurrences. */
  lemma {:induction false} FirstOccurrencesDistinct(ms: seq<Option<string>>)
    ensures Distinct(FirstOccurrences(ms))
  {
    if |ms| > 0 {
      var n := |ms| - 1;
      FirstOccurrencesDistinct(ms[..n]);
      var prev := FirstOccurrences(ms[..n]);
      var r := FirstOccurrences(ms);
      if IsFirstOccurrence(ms, n) {
        assert r == prev + [ms[n]];
        forall i, j | 0 <= i < j < |r| && r[i].Some? ensures r[i] != r[j] {
          assert r[i] == prev[i];
          if j == |prev| {
            assert r[i] in ms[..n];
          } else {
            assert r[j] == prev[j];
          }
        }
      } else {
        assert r == prev;
      }
    }
  }

  /** A successful build of a list is one more `Step` after a successful build of its prefix. */
  lemma BuildSpecLast(updates: seq<Update>)
    requires |updates| > 0 && BuildSpec(updates).Ok?
    ensures BuildSpec(updates[..|updates| - 1]).Ok?
    ensures BuildSpec(updates) == Step(BuildSpec(updates[..|updates| - 1]).value, updates[|updates| - 1])
  {
  }

  /**
   * A successful `Step` keeps the frameworks when the update's moniker is
   * already present, appends the update's entry otherwise, and keeps a
   * non-null base path.
   */
  lemma StepShape(acc: ProjectRestoreInfo, update: Update)
    requires Step(acc, update).Ok?
    ensures var next := Step(acc, update).value;
      && next.targetFrameworks ==
           (if Lookup(acc.targetFrameworks, FrameworkName, NameIndex(Moniker(update))).Some?
            then acc.targetFrameworks
            else acc.targetFrameworks + [FrameworkOf(update)])
      && next.baseIntermediatePath ==
           (if acc.baseIntermediatePath.Some? then acc.baseIntermediatePath else BasePath(update))
  {
  }

  /** A moniker can be looked up in the result exactly when some update names it. */
  lemma {:induction false} BuildCoversMonikers(updates: seq<Update>, m: string)
    requires BuildSpec(updates).Ok?
    ensures Lookup(BuildSpec(updates).value.targetFrameworks, FrameworkName, ByName(m)).Some?
      <==> Some(m) in Monikers(updates)
  {
    if |updates| > 0 {
      var n := |updates| - 1;
      var prefix := updates[..n];
      BuildSpecLast(updates);
      BuildCoversMonikers(prefix, m);
      MonikersLast(updates);
      var acc := BuildSpec(prefix).value;
      StepShape(acc, updates[n]);
      if Lookup(acc.targetFrameworks, FrameworkName, NameIndex(Moniker(updates[n]))).None? {
        LookupAppend(acc.targetFrameworks, FrameworkName, m, FrameworkOf(updates[n]));
      }
    }
  }

  /**
   * One step of the order argument, on plain values: appending an entry
   * exactly for a moniker not seen before extends the first occurrences.
   */
  lemma OrderStep(seen: seq<Option<string>>, frameworks: seq<TargetFrameworkInfo>, x: TargetFrameworkInfo)
    requires FrameworkMonikers(frameworks) == FirstOccurrences(seen)
    requires x.targetFrameworkMoniker.Some? ==>
      (Lookup(frameworks, FrameworkName, NameIndex(x.targetFrameworkMoniker)).Some? <==>
       x.targetFrameworkMoniker in seen)
    ensures FrameworkMonikers(
        if Lookup(frameworks, FrameworkName, NameIndex(x.targetFrameworkMoniker)).Some?
        then frameworks else frameworks + [x])
      == FirstOccurrences(seen + [x.targetFrameworkMoniker])
  {
    var ms := seen + [x.targetFrameworkMoniker];
    assert ms[..|seen|] == seen;
    if !Lookup(frameworks, FrameworkName, NameIndex(x.targetFrameworkMoniker)).Some? {
      assert FrameworkMonikers(frameworks + [x]) == FrameworkMonikers(frameworks) + [x.targetFrameworkMoniker];
    }
  }

  /**
   * The monikers of the result are those of the updates, each kept at its
   * first appearance, in the order of the updates.
   */
  lemma {:induction false} BuildMonikersInOrder(updates: seq<Update>)
    requires BuildSpec(updates).Ok?
    ensures FrameworkMonikers(BuildSpec(updates).value.targetFrameworks) ==
      FirstOccurrences(Monikers(updates))
  {
    if |updates| > 0 {
      var n := |updates| - 1;
      var prefix := updates[..n];
      BuildSpecLast(updates);
      BuildMonikersInOrder(prefix);
      var acc := BuildSpec(prefix).value;
      StepShape(acc, updates[n]);
      var moniker := Moniker(updates[n]);
      if moniker.Some? {
        BuildCoversMonikers(prefix, moniker.value);
      }
      MonikersLast(updates);
      OrderStep(Monikers(prefix), acc.targetFrameworks, FrameworkOf(updates[n]));
    }
  }

  /** The result never holds two entries with the same (non-null) moniker. */
  lemma BuildMonikersDistinct(updates: seq<Update>)
    requires BuildSpec(updates).Ok?
    ensures var frameworks := BuildSpec(updates).value.targetFrameworks;
      forall i, j :: 0 <= i < j < |frameworks| && frameworks[i].targetFrameworkMoniker.Some? ==>
        frameworks[i].targetFrameworkMoniker != frameworks[j].targetFrameworkMoniker
  {
    BuildMonikersInOrder(updates);
    FirstOccurrencesDistinct(Monikers(updates));
    var frameworks := BuildSpec(updates).value.targetFrameworks;
    var fm := FrameworkMonikers(frameworks);
    forall i, j | 0 <= i < j < |frameworks| && frameworks[i].targetFrameworkMoniker.Some?
      ensures frameworks[i].targetFrameworkMoniker != frameworks[j].targetFrameworkMoniker
    {
      assert fm[i] == frameworks[i].targetFrameworkMoniker && fm[j] == frameworks[j].targetFrameworkMoniker;
    }
  }

  /**
   * The entry for a moniker is the one built from the first update naming
   * it; later updates with that moniker leave it as it is.
   */
  lemma {:induction false} BuildFirstWins(updates: seq<Update>, k: nat)
    requires BuildSpec(updates).Ok?
    requires k < |updates| && Moniker(updates[k]).Some?
    requires forall j :: 0 <= j < k ==> Moniker(updates[j]) != Moniker(updates[k])
    ensures Lookup(BuildSpec(updates).value.targetFrameworks, FrameworkName,
      ByName(Moniker(updates[k]).value)) == Some(FrameworkOf(updates[k]))
  {
    var n := |updates| - 1;
    var prefix := updates[..n];
    var m := Moniker(updates[k]).value;
    BuildSpecLast(updates);
    var acc := BuildSpec(prefix).value;
    StepShape(acc, updates[n]);
    if k == n {
      BuildCoversMonikers(prefix, m);
      assert Some(m) !in Monikers(prefix);
      LookupAppend(acc.targetFrameworks, FrameworkName, m, FrameworkOf(updates[k]));
    } else {
      BuildFirstWins(prefix, k);
      LookupAppend(acc.targetFrameworks, FrameworkName, m, FrameworkOf(updates[n]));
    }
  }

  /**
   * The target framework entries `Build` should produce: in update order,
   * the entry of every update whose moniker is null or not named by an
   * earlier update.
   */
  function FirstFrames(updates: seq<Update>): (frameworks: seq<TargetFrameworkInfo>)
    ensures |frameworks| <= |updates|
    ensures forall f :: f in frameworks ==> exists k :: 0 <= k < |updates| && f == FrameworkOf(updates[k])
    decreases |updates|
  {
    if |updates| == 0 then []
    else
      var n := |updates| - 1;
      var prefix := updates[..n];
      assert forall k :: 0 <= k < n ==> prefix[k] == updates[k];
      var moniker := Moniker(updates[n]);
      FirstFrames(prefix) + (if moniker.None? || moniker !in Monikers(prefix) then [FrameworkOf(updates[n])] else [])
  }

  /**
   * The frameworks of the result are exactly `FirstFrames`: each entry,
   * including every entry with a null moniker, is built from its own update.
   */
  lemma {:induction false} BuildFrameworks(updates: seq<Update>)
    requires BuildSpec(updates).Ok?
    ensures BuildSpec(updates).value.targetFrameworks == FirstFrames(updates)
  {
    if |updates| > 0 {
      var n := |updates| - 1;
      var prefix := updates[..n];
      BuildSpecLast(updates);
      BuildFrameworks(prefix);
      var acc := BuildSpec(prefix).value;
      StepShape(acc, updates[n]);
      var moniker := Moniker(updates[n]);
      if moniker.Some? {
        BuildCoversMonikers(prefix, moniker.value);
      }
    }
  }

  /**
   * The base path of the first update whose value is non-null (an empty
   * string counts), or null when there is none.
   */
  function FirstBasePath(updates: seq<Update>): (path: Option<string>)
    ensures path.Some? ==>
      exists k :: 0 <= k < |updates| && BasePath(updates[k]) == path &&
        (forall j :: 0 <= j < k ==> BasePath(updates[j]).None?)
    ensures path.None? ==> forall k :: 0 <= k < |updates| ==> BasePath(updates[k]).None?
    decreases |updates|
  {
    if |updates| == 0 then None
    else
      var n := |updates| - 1;
      var prefix := updates[..n];
      assert forall j :: 0 <= j < n ==> prefix[j] == updates[j];
      var before := FirstBasePath(prefix);
      if before.Some? then before else BasePath(updates[n])
  }

  /** The result's base path is the first non-null one among the updates. */
  lemma {:induction false} BuildBasePath(updates: seq<Update>)
    requires BuildSpec(updates).Ok?
    ensures BuildSpec(updates).value.baseIntermediatePath == FirstBasePath(updates)
  {
    if |updates| > 0 {
      var n := |updates| - 1;
      BuildSpecLast(updates);
      BuildBasePath(updates[..n]);
      StepShape(BuildSpec(updates[..n]).value, updates[n]);
    }
  }

  /** Updates that carry every rule and property read never make the build throw. */
  lemma {:induction false} BuildSucceedsOnCompleteUpdates(updates: seq<Update>)
    requires forall i :: 0 <= i < |updates| ==> Complete(updates[i])
    ensures BuildSpec(updates).Ok?
  {
    if |updates| > 0 {
      BuildSucceedsOnCompleteUpdates(updates[..|updates| - 1]);
    }
  }

  /** The ConfigurationGeneral rule is present and holds `property` (possibly with a null value). */
  predicate HasConfigurationProperty(update: Update, property: string) {
    ConfigurationGeneralRule in update.projectChanges &&
    property in update.projectChanges[ConfigurationGeneralRule].after.properties
  }

  /**
   * Everything one iteration reads is there: the ConfigurationGeneral rule;
   * its base path property while no path is known; its moniker property;
   * and both reference rules when the moniker has not been seen before.
   */
  predicate Readable(update: Update, pathKnown: bool, monikerSeen: bool) {
    && ConfigurationGeneralRule in update.projectChanges
    && (pathKnown || HasConfigurationProperty(update, BaseIntermediateOutputPathProperty))
    && HasConfigurationProperty(update, TargetFrameworkMonikerProperty)
    && (monikerSeen ||
        (ProjectReferenceRule in update.projectChanges && PackageReferenceRule in update.projectChanges))
  }

  /** One iteration throws exactly when something it reads is missing. */
  lemma StepOkIff(acc: ProjectRestoreInfo, update: Update)
    ensures Step(acc, update).Ok? <==> Readable(update, acc.baseIntermediatePath.Some?,
      Lookup(acc.targetFrameworks, FrameworkName, NameIndex(Moniker(update))).Some?)
  {
  }

  /**
   * Every update carries what its iteration reads: the base path property
   * is needed up to the first update with a non-null path, and the
   * reference rules at the first occurrence of each moniker (and at every
   * null moniker).
   */
  predicate Buildable(updates: seq<Update>) {
    forall i :: 0 <= i < |updates| ==> BuildableAt(updates, i)
  }

  /**
   * The condition of `Buildable` at position `i`: the path is known once some
   * earlier update had a non-null path, the moniker is seen once some earlier
   * update named the same non-null moniker.
   */
  predicate BuildableAt(updates: seq<Update>, i: nat)
    requires i < |updates|
  {
    Readable(updates[i],
      exists j :: 0 <= j < i && BasePath(updates[j]).Some?,
      Moniker(updates[i]).Some? && exists j :: 0 <= j < i && Moniker(updates[j]) == Moniker(updates[i]))
  }

  /** A path is known after the first `k` updates exactly when one of them had a non-null path. */
  lemma PathKnownIff(updates: seq<Update>, k: nat)
    requires k <= |updates|
    ensures FirstBasePath(updates[..k]).Some? <==> exists j :: 0 <= j < k && BasePath(updates[j]).Some?
  {
    assert forall j :: 0 <= j < k ==> updates[..k][j] == updates[j];
  }

  /** A moniker is among those of the first `k` updates exactly when one of them names it. */
  lemma MonikerSeenIff(updates: seq<Update>, k: nat, m: string)
    requires k <= |updates|
    ensures Some(m) in Monikers(updates[..k]) <==> exists j :: 0 <= j < k && Moniker(updates[j]) == Some(m)
  {
    var ms := Monikers(updates[..k]);
    if Some(m) in ms {
      var j :| 0 <= j < |ms| && ms[j] == Some(m);
      assert updates[..k][j] == updates[j];
    }
    if exists j :: 0 <= j < k && Moniker(updates[j]) == Some(m) {
      var j :| 0 <= j < k && Moniker(updates[j]) == Some(m);
      assert updates[..k][j] == updates[j];
      assert ms[j] == Some(m);
    }
  }

  /**
   * After the first `k` updates have built, the first `k + 1` build exactly
   * when update `k` carries what its iteration reads.
   */
  lemma StepOkAt(updates: seq<Update>, k: nat)
    requires k < |updates| && BuildSpec(updates[..k]).Ok?
    ensures BuildSpec(updates[..k + 1]).Ok? <==> BuildableAt(updates, k)
  {
    var acc := BuildSpec(updates[..k]).value;
    assert updates[..k + 1][..k] == updates[..k];
    BuildBasePath(updates[..k]);
    PathKnownIff(updates, k);
    var moniker := Moniker(updates[k]);
    if moniker.Some? {
      BuildCoversMonikers(updates[..k], moniker.value);
      MonikerSeenIff(updates, k, moniker.value);
    }
    StepOkIff(acc, updates[k]);
  }

  /** The first `k` updates build exactly when each of them carries what its iteration reads. */
  lemma {:induction false} BuildOkUpTo(updates: seq<Update>, k: nat)
    requires k <= |updates|
    ensures BuildSpec(updates[..k]).Ok? <==> forall i :: 0 <= i < k ==> BuildableAt(updates, i)
  {
    if k > 0 {
      BuildOkUpTo(updates, k - 1);
      if BuildSpec(updates[..k - 1]).Ok? {
        StepOkAt(updates, k - 1);
      } else {
        assert updates[..k][..k - 1] == updates[..k - 1];
        BuildErrorPersists(updates[..k], k - 1);
      }
    }
  }

  /**
   * The build throws exactly when some update lacks what its iteration
   * reads: the ConfigurationGeneral rule or its moniker property always,
   * the base path property until a non-null path is found, the project and
   * package reference rules at a moniker's first appearance.
   */
  lemma BuildOkIff(updates: seq<Update>)
    ensures BuildSpec(updates).Ok? <==> Buildable(updates)
  {
    BuildOkUpTo(updates, |updates|);
    assert updates[..|updates|] == updates;
  }
}
