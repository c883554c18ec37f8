/**
 * The restore info handed to NuGet: a base intermediate path and one entry
 * per target framework, each with its project and package references.
 * Every list in it is a keyed list; the functions here are the `GetName`
 * keys of those lists.
 */
module RestoreInfo {
  import opened Wrappers

  datatype ReferenceProperty = ReferenceProperty(name: string, value: string)

  datatype ReferenceItem = ReferenceItem(name: string, properties: seq<ReferenceProperty>)

  datatype TargetFrameworkInfo = TargetFrameworkInfo(
    targetFrameworkMoniker: Option<string>,
    projectReferences: seq<ReferenceItem>,
    packageReferences: seq<ReferenceItem>)

  datatype ProjectRestoreInfo = ProjectRestoreInfo(
    baseIntermediatePath: Option<string>,
    targetFrameworks: seq<TargetFrameworkInfo>)

  /** Key of the target framework list. */
  function FrameworkName(info: TargetFrameworkInfo): Option<string> {
    info.targetFrameworkMoniker
  }

  /** Key of a reference item list. */
  function ReferenceItemName(item: ReferenceItem): Option<string> {
    Some(item.name)
  }

  /** Key of a reference property list. */
  function ReferencePropertyName(property: ReferenceProperty): Option<string> {
    Some(property.name)
  }
}
