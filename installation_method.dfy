/**
 * How a registry entry is installed, and the accessors and descriptions
 * derived from it.
 */
module Installation {
  import opened Wrappers
  import PM = PackageManager

  /**
   * A parsed package source, reduced to the three fields the installation
   * accessors read.
   */
  datatype PackageSource = PackageSource(pkgName: string, version: Option<string>, sourceType: PM.PackageManagerType)

  datatype InstallationMethod =
    | StandardPackage(source: PackageSource)
    | SourceBuild(source: PackageSource, command: string)
    | BinaryDownload(source: PackageSource, url: string)
    | Unknown

  function Source(m: InstallationMethod): Option<PackageSource>
  {
    match m
    case StandardPackage(source) => Some(source)
    case SourceBuild(source, _) => Some(source)
    case BinaryDownload(source, _) => Some(source)
    case Unknown => None
  }

  function PackageName(m: InstallationMethod): Option<string>
  {
    match m
    case StandardPackage(source) => Some(source.pkgName)
    case SourceBuild(source, _) => Some(source.pkgName)
    case BinaryDownload(source, _) => Some(source.pkgName)
    case Unknown => None
  }

  function Version(m: InstallationMethod): Option<string>
  {
    match m
    case StandardPackage(source) => source.version
    case SourceBuild(source, _) => source.version
    case BinaryDownload(source, _) => source.version
    case Unknown => None
  }

  function PackageManagerType(m: InstallationMethod): Option<PM.PackageManagerType>
  {
    match m
    case StandardPackage(source) => Some(source.sourceType)
    case SourceBuild(source, _) => Some(source.sourceType)
    case BinaryDownload(source, _) => Some(source.sourceType)
    case Unknown => None
  }

  /**
   * The source is absent exactly for `.unknown`, and the other three
   * accessors read their field of the source (nil when it is absent).
   */
  lemma AccessorsReadSource(m: InstallationMethod)
    ensures Source(m).None? <==> m.Unknown?
    ensures PackageName(m) == if Source(m).Some? then Some(Source(m).value.pkgName) else None
    ensures Version(m) == if Source(m).Some? then Source(m).value.version else None
    ensures PackageManagerType(m) == if Source(m).Some? then Some(Source(m).value.sourceType) else None
  {
  }

  function InstallerDescription(m: InstallationMethod): string
  {
    match PackageManagerType(m)
    case None => "Unknown"
    case Some(t) =>
      match t
      case Npm | Cargo | Golang | Pip | SourceBuild | Github => PM.UserDescription(t)
      case Nuget | Opam | Gem | Composer => "(Unsupported) " + PM.UserDescription(t)
  }

  /**
   * "Unknown" exactly for `.unknown`; otherwise the manager's description,
   * marked "(Unsupported) " exactly when that manager has no installer.
   */
  lemma InstallerDescriptionCases(m: InstallationMethod)
    ensures InstallerDescription(m) == "Unknown" <==> m.Unknown?
    ensures !m.Unknown? ==>
      var t := m.source.sourceType;
      InstallerDescription(m)
      == (if PM.PackageManager(t).None? then "(Unsupported) " + PM.UserDescription(t) else PM.UserDescription(t))
  {
  }

  function PackageDescription(m: InstallationMethod): Option<string>
  {
    match PackageName(m)
    case None => None
    case Some(packageName) =>
      match Version(m)
      case Some(version) => Some(packageName + "@" + version)
      case None => Some(packageName)
  }

  /**
   * Nil exactly for `.unknown`; otherwise the package name, followed by "@"
   * and the version when the source has one.
   */
  lemma PackageDescriptionCases(m: InstallationMethod)
    ensures PackageDescription(m).None? <==> m.Unknown?
    ensures !m.Unknown? && m.source.version.Some? ==>
      PackageDescription(m) == Some(m.source.pkgName + "@" + m.source.version.value)
    ensures !m.Unknown? && m.source.version.None? ==> PackageDescription(m) == Some(m.source.pkgName)
  {
  }
}
