/**
 * Folds the updates of all active configurations into one restore info:
 * the first non-null base intermediate path wins, and there is one target
 * framework entry per moniker, built from the first update that names it.
 */
module RestoreInfoBuilder {
  import opened Wrappers
  import opened ItemLists
  import opened Subscription
  import opened RestoreInfo

  /** What the dictionary indexers throw (`KeyNotFoundException`) when a key is absent. */
  datatype BuildError =
    | MissingRule(rule: string)
    | MissingProperty(property: string)

  /** The inner `Select`: an item's metadata as reference properties, in order. */
  function GetProperties(metadata: Metadata): (r: seq<ReferenceProperty>)
    ensures |r| == |metadata|
    ensures forall j :: 0 <= j < |metadata| ==>
      r[j] == ReferenceProperty(metadata[j].0, metadata[j].1)
  {
    if |metadata| == 0 then []
    else [ReferenceProperty(metadata[0].0, metadata[0].1)] + GetProperties(metadata[1..])
  }

  /** `GetReferences`: one reference item per dictionary entry, in enumeration order. */
  function GetReferences(items: Items): (r: seq<ReferenceItem>)
    ensures |r| == |items|
    ensures forall i :: 0 <= i < |items| ==>
      r[i].name == items[i].0 && |r[i].properties| == |items[i].1|
    ensures forall i, j :: 0 <= i < |items| && 0 <= j < |items[i].1| ==>
      r[i].properties[j] == ReferenceProperty(items[i].1[j].0, items[i].1[j].1)
  {
    if |items| == 0 then []
    else [ReferenceItem(items[0].0, GetProperties(items[0].1))] + GetReferences(items[1..])
  }

  /** Reads reference items back as the dictionary entries they were made from. */
  function ItemsOf(references: seq<ReferenceItem>): Items {
    if |references| == 0 then []
    else
      var ps := references[0].properties;
      [(references[0].name, seq(|ps|, j requires 0 <= j < |ps| => (ps[j].name, ps[j].value)))]
        + ItemsOf(references[1..])
  }

  /** Flattening loses nothing: the items can be read back from the references. */
  lemma {:induction false} GetReferencesRoundTrip(items: Items)
    ensures ItemsOf(GetReferences(items)) == items
  {
    if |items| > 0 {
      GetReferencesRoundTrip(items[1..]);
      var ps := GetReferences(items)[0].properties;
      assert seq(|ps|, j requires 0 <= j < |ps| => (ps[j].name, ps[j].value)) == items[0].1;
      assert items == [items[0]] + items[1..];
    }
  }

  /** Distinct dictionary keys. */
  predicate UniqueKeys(items: Items) {
    forall i, j :: 0 <= i < j < |items| ==> items[i].0 != items[j].0
  }

  /** With distinct keys, looking a reference up by its key finds the entry made from it. */
  lemma LookupReference(items: Items, i: nat)
    requires UniqueKeys(items) && i < |items|
    ensures Lookup(GetReferences(items), ReferenceItemName, ByName(items[i].0)) ==
      Some(ReferenceItem(items[i].0, GetProperties(items[i].1)))
  {
    var r := GetReferences(items);
    assert r[i] == ReferenceItem(items[i].0, GetProperties(items[i].1)) by {
      assert r == [r[0]] + r[1..];
      if i > 0 { assert r[1..] == GetReferences(items[1..]); }
    }
    LookupFirstShadows(r, ReferenceItemName, items[i].0, i);
  }

  /** Distinct metadata names. */
  predicate UniqueNames(metadata: Metadata) {
    forall i, j :: 0 <= i < j < |metadata| ==> metadata[i].0 != metadata[j].0
  }

  /** With distinct names, looking a property up by its name finds the pair it was made from. */
  lemma LookupProperty(metadata: Metadata, j: nat)
    requires UniqueNames(metadata) && j < |metadata|
    ensures Lookup(GetProperties(metadata), ReferencePropertyName, ByName(metadata[j].0)) ==
      Some(ReferenceProperty(metadata[j].0, metadata[j].1))
  {
    LookupFirstShadows(GetProperties(metadata), ReferencePropertyName, metadata[j].0, j);
  }

  /** The references a fresh target framework entry gets from one rule, or none if it is absent. */
  function RuleItems(update: Update, rule: string): Items {
    if rule in update.projectChanges then update.projectChanges[rule].after.items else []
  }

  /** A property of the ConfigurationGeneral rule; absent reads as null. */
  function ConfigurationProperty(update: Update, property: string): Option<string> {
    if ConfigurationGeneralRule in update.projectChanges
       && property in update.projectChanges[ConfigurationGeneralRule].after.properties
    then update.projectChanges[ConfigurationGeneralRule].after.properties[property]
    else None
  }

  function Moniker(update: Update): Option<string> {
    ConfigurationProperty(update, TargetFrameworkMonikerProperty)
  }

  function BasePath(update: Update): Option<string> {
    ConfigurationProperty(update, BaseIntermediateOutputPathProperty)
  }

  /** The entry an update contributes when it is the first with its moniker. */
  function FrameworkOf(update: Update): TargetFrameworkInfo {
    TargetFrameworkInfo(
      Moniker(update),
      GetReferences(RuleItems(update, ProjectReferenceRule)),
      GetReferences(RuleItems(update, PackageReferenceRule)))
  }

  /** An update with every rule and property that `Build` may read. */
  predicate Complete(update: Update) {
    var changes := update.projectChanges;
    && ConfigurationGeneralRule in changes
    && ProjectReferenceRule in changes
    && PackageReferenceRule in changes
    && BaseIntermediateOutputPathProperty in changes[ConfigurationGeneralRule].after.properties
    && TargetFrameworkMonikerProperty in changes[ConfigurationGeneralRule].after.properties
  }

  /**
   * One iteration of the loop of `Build`, from the path and frameworks
   * accumulated so far. The base path property is read only while the path
   * is still null (`??`), and the reference rules only for a new moniker.
   */
  function Step(acc: ProjectRestoreInfo, update: Update): Result<ProjectRestoreInfo, BuildError> {
    var changes := update.projectChanges;
    if ConfigurationGeneralRule !in changes then Err(MissingRule(ConfigurationGeneralRule))
    else
      var properties := changes[ConfigurationGeneralRule].after.properties;
      if acc.baseIntermediatePath.None? && BaseIntermediateOutputPathProperty !in properties then
        Err(MissingProperty(BaseIntermediateOutputPathProperty))
      else
        var basePath :=
          if acc.baseIntermediatePath.Some? then acc.baseIntermediatePath
          else properties[BaseIntermediateOutputPathProperty];
        if TargetFrameworkMonikerProperty !in properties then
          Err(MissingProperty(TargetFrameworkMonikerProperty))
        else
          var moniker := properties[TargetFrameworkMonikerProperty];
          if Lookup(acc.targetFrameworks, FrameworkName, NameIndex(moniker)).Some? then
            Ok(ProjectRestoreInfo(basePath, acc.targetFrameworks))
          else if ProjectReferenceRule !in changes then Err(MissingRule(ProjectReferenceRule))
          else if PackageReferenceRule !in changes then Err(MissingRule(PackageReferenceRule))
          else
            Ok(ProjectRestoreInfo(basePath, acc.targetFrameworks + [TargetFrameworkInfo(
              moniker,
              GetReferences(changes[ProjectReferenceRule].after.items),
              GetReferences(changes[PackageReferenceRule].after.items))]))
  }

  /** The result of `Build` on the given updates, stated as a fold of `Step` over their prefixes. */
  function BuildSpec(updates: seq<Update>): Result<ProjectRestoreInfo, BuildError>
    decreases |updates|
  {
    if |updates| == 0 then Ok(ProjectRestoreInfo(None, []))
    else
      match BuildSpec(updates[..|updates| - 1])
      case Err(e) => Err(e)
      case Ok(acc) => Step(acc, updates[|updates| - 1])
  }

  /** An exception ends the loop: once a prefix fails, the whole list fails the same way. */
  lemma {:induction false} BuildErrorPersists(updates: seq<Update>, n: nat)
    requires n <= |updates| && BuildSpec(updates[..n]).Err?
    ensures BuildSpec(updates) == BuildSpec(updates[..n])
    decreases |updates| - n
  {
    if n < |updates| {
      var shorter := updates[..|updates| - 1];
      assert shorter[..n] == updates[..n];
      BuildErrorPersists(shorter, n);
    } else {
      assert updates[..n] == updates;
    }
  }

  /** `Build(updates)`: the loop of the source, over an `ItemList` of target frameworks. */
  method Build(updates: seq<Update>) returns (r: Result<ProjectRestoreInfo, BuildError>)
    ensures r == BuildSpec(updates)
    ensures |updates| == 0 ==> r == Ok(ProjectRestoreInfo(None, []))
  {
    var baseIntermediatePath: Option<string> := None;
    var targetFrameworks := new ItemList<TargetFrameworkInfo>(FrameworkName);
    for i := 0 to |updates|
      invariant targetFrameworks.getName == FrameworkName
      invariant BuildSpec(updates[..i]) ==
        Ok(ProjectRestoreInfo(baseIntermediatePath, targetFrameworks.elements))
    {
      var update := updates[i];
      assert updates[..i + 1][..i] == updates[..i];
      if ConfigurationGeneralRule !in update.projectChanges {
        BuildErrorPersists(updates, i + 1);
        return Err(MissingRule(ConfigurationGeneralRule));
      }
      var configurationChanges := update.projectChanges[ConfigurationGeneralRule];
      if baseIntermediatePath.None? {
        if BaseIntermediateOutputPathProperty !in configurationChanges.after.properties {
          BuildErrorPersists(updates, i + 1);
          return Err(MissingProperty(BaseIntermediateOutputPathProperty));
        }
        baseIntermediatePath := configurationChanges.after.properties[BaseIntermediateOutputPathProperty];
      }
      if TargetFrameworkMonikerProperty !in configurationChanges.after.properties {
        BuildErrorPersists(updates, i + 1);
        return Err(MissingProperty(TargetFrameworkMonikerProperty));
      }
      var targetFrameworkMoniker := configurationChanges.after.properties[TargetFrameworkMonikerProperty];
      var existing := targetFrameworks.Item(NameIndex(targetFrameworkMoniker));
      if existing.None? {
        if ProjectReferenceRule !in update.projectChanges {
          BuildErrorPersists(updates, i + 1);
          return Err(MissingRule(ProjectReferenceRule));
        }
        if PackageReferenceRule !in update.projectChanges {
          BuildErrorPersists(updates, i + 1);
          return Err(MissingRule(PackageReferenceRule));
        }
        var projectReferencesChanges := update.projectChanges[ProjectReferenceRule];
        var packageReferencesChanges := update.projectChanges[PackageReferenceRule];
        targetFrameworks.Add(TargetFrameworkInfo(
          targetFrameworkMoniker,
          GetReferences(projectReferencesChanges.after.items),
          GetReferences(packageReferencesChanges.after.items)));
      }
    }
    assert updates[..|updates|] == updates;
    return Ok(ProjectRestoreInfo(baseIntermediatePath, targetFrameworks.elements));
  }
}
