/** The shells the terminal can start, and where their executables live. */
module Shells {
  import opened Wrappers

  datatype Shell = Bash | Zsh | Fish

  /** `allCases`, in declaration order. */
  const AllCases: seq<Shell> := [Bash, Zsh, Fish]

  /** The `String` raw value: the case name. */
  function RawValue(s: Shell): string
  {
    match s
    case Bash => "bash"
    case Zsh => "zsh"
    case Fish => "fish"
  }

  /** `Shell(rawValue:)`. */
  function FromRawValue(raw: string): Option<Shell>
  {
    if raw == "bash" then Some(Bash)
    else if raw == "zsh" then Some(Zsh)
    else if raw == "fish" then Some(Fish)
    else None
  }

  /** Every shell appears once in `allCases`, and its raw value reads back as itself. */
  lemma AllCasesAndRawValues(s: Shell, raw: string)
    ensures s in AllCases && |AllCases| == 3
    ensures forall i, j :: 0 <= i < j < |AllCases| ==> AllCases[i] != AllCases[j]
    ensures FromRawValue(RawValue(s)) == Some(s)
    ensures FromRawValue(raw) == Some(s) ==> raw == RawValue(s)
  {
  }

  function DefaultPath(s: Shell): Option<string>
  {
    match s
    case Bash => Some("/bin/bash")
    case Zsh => Some("/bin/zsh")
    case Fish => None
  }

  /**
   * Bash and zsh live in /bin under their own names; fish has no default
   * location.
   */
  lemma DefaultPathCases(s: Shell)
    ensures DefaultPath(s).None? <==> s == Fish
    ensures DefaultPath(s).Some? ==> DefaultPath(s).value == "/bin/" + RawValue(s)
  {
  }

  /**
   * `autoDetectDefaultShellPath()`. The login shell of the current user is
   * an input: nil when the user record cannot be read.
   */
  function AutoDetectDefaultShellPath(currentUserShell: Option<string>): string
  {
    match currentUserShell
    case Some(shell) => shell
    case None =>
      match DefaultPath(Zsh)
      case Some(path) => path
      case None => "/bin/zsh"
  }

  /** The user's own shell when there is a user, and zsh otherwise. */
  lemma AutoDetectCases(currentUserShell: Option<string>)
    ensures currentUserShell.Some? ==> AutoDetectDefaultShellPath(currentUserShell) == currentUserShell.value
    ensures currentUserShell.None? ==> Some(AutoDetectDefaultShellPath(currentUserShell)) == DefaultPath(Zsh)
  {
  }
}
