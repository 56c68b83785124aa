/**
 * The package managers a language-server registry entry can name, their
 * user-facing descriptions, and which of them have an installer.
 */
module PackageManager {
  import opened Wrappers

  datatype PackageManagerType =
    | Npm | Cargo | Golang | Pip | Gem | Nuget | Opam | Composer | SourceBuild | Github

  /**
   * The installers that exist. The install path handed to them is passed
   * through unchanged and is not part of this model.
   */
  datatype Installer =
    | NPMPackageManager | CargoPackageManager | PipPackageManager
    | GolangPackageManager | GithubPackageManager

  function UserDescription(t: PackageManagerType): string
  {
    match t
    case Npm => "NPM"
    case Cargo => "Cargo"
    case Golang => "Go"
    case Pip => "Pip"
    case Gem => "Gem"
    case Nuget => "Nuget"
    case Opam => "Opam"
    case Composer => "Composer"
    case SourceBuild => "Build From Source"
    case Github => "Download From GitHub"
  }

  /** Reads a package manager back from its description. */
  function FromUserDescription(s: string): Option<PackageManagerType>
  {
    if s == "NPM" then Some(Npm)
    else if s == "Cargo" then Some(Cargo)
    else if s == "Go" then Some(Golang)
    else if s == "Pip" then Some(Pip)
    else if s == "Gem" then Some(Gem)
    else if s == "Nuget" then Some(Nuget)
    else if s == "Opam" then Some(Opam)
    else if s == "Composer" then Some(Composer)
    else if s == "Build From Source" then Some(SourceBuild)
    else if s == "Download From GitHub" then Some(Github)
    else None
  }

  /** Every description reads back as its package manager. */
  lemma UserDescriptionRoundTrip(t: PackageManagerType)
    ensures FromUserDescription(UserDescription(t)) == Some(t)
  {
  }

  /** Hence no two package managers share a description. */
  lemma UserDescriptionInjective(a: PackageManagerType, b: PackageManagerType)
    requires UserDescription(a) == UserDescription(b)
    ensures a == b
  {
    UserDescriptionRoundTrip(a);
    UserDescriptionRoundTrip(b);
  }

  /** `packageManager(installPath:)`: the installer for a package manager, if one exists. */
  function PackageManager(t: PackageManagerType): Option<Installer>
  {
    match t
    case Npm => Some(NPMPackageManager)
    case Cargo => Some(CargoPackageManager)
    case Pip => Some(PipPackageManager)
    case Golang => Some(GolangPackageManager)
    case Github | SourceBuild => Some(GithubPackageManager)
    case Nuget | Opam | Gem | Composer => None
  }

  /**
   * Nuget, Opam, Gem and Composer have no installer; building from source
   * and downloading from GitHub share one; every other manager has its own.
   */
  lemma PackageManagerSupport(a: PackageManagerType, b: PackageManagerType)
    ensures PackageManager(a).None? <==> a in {Nuget, Opam, Gem, Composer}
    ensures PackageManager(Github) == PackageManager(SourceBuild)
    ensures PackageManager(a).Some? && PackageManager(a) == PackageManager(b) && a != b
            ==> {a, b} == {Github, SourceBuild}
  {
  }
}
