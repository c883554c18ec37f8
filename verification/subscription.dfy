/**
 * The part of a project subscription update that the restore logic reads:
 * for every rule of the update, the rule's state after the change (its
 * properties and its items) and the difference from the state before.
 */
module Subscription {
  import opened Wrappers

  /** An item's metadata: (name, value) pairs in the dictionary's enumeration order. */
  type Metadata = seq<(string, string)>

  /** Items of a rule: (item name, metadata) pairs in the dictionary's enumeration order. */
  type Items = seq<(string, Metadata)>

  /** `After` of a rule: property values (a value may be null) and items. */
  datatype RuleSnapshot = RuleSnapshot(properties: map<string, Option<string>>, items: Items)

  /** `Difference` of a rule. */
  datatype RuleDifference = RuleDifference(changedProperties: set<string>, anyChanges: bool)

  /** One rule's change description. */
  datatype RuleChange = RuleChange(after: RuleSnapshot, difference: RuleDifference)

  /** One configuration's update: `ProjectChanges`, keyed by rule name. */
  datatype Update = Update(projectChanges: map<string, RuleChange>)

  // Rule (schema) names.
  const ConfigurationGeneralRule := "ConfigurationGeneral"
  const ProjectReferenceRule := "ProjectReference"
  const PackageReferenceRule := "PackageReference"
  const CompilerCommandLineArgsRule := "CompilerCommandLineArgs"
  const NuGetRestoreRule := "NuGetRestore"
  const DotNetCliToolReferenceRule := "DotNetCliToolReference"

  // Property names read from the ConfigurationGeneral rule.
  const BaseIntermediateOutputPathProperty := "BaseIntermediateOutputPath"
  const TargetFrameworkMonikerProperty := "TargetFrameworkMoniker"

  // Property names of the NuGetRestore rule that govern the set of configurations.
  const TargetFrameworksProperty := "TargetFrameworks"
  const TargetFrameworkProperty := "TargetFramework"
}
