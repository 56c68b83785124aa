/**
 * The language server a user has configured: an executable with its own
 * arguments and environment, or a command installed from the registry.
 */
module LanguageServerSettings {
  import opened Wrappers

  datatype LanguageServerConfiguration =
    | Exec(path: string, args: seq<string>, env: Option<map<string, string>>)
    | Registry(command: string)

  function ExecPath(c: LanguageServerConfiguration): Option<string>
  {
    match c
    case Exec(path, _, _) => Some(path)
    case Registry(command) => Some(command)
  }

  function Args(c: LanguageServerConfiguration): seq<string>
  {
    match c
    case Exec(_, args, _) => args
    case Registry(_) => []
  }

  function Env(c: LanguageServerConfiguration): map<string, string>
  {
    match c
    case Exec(_, _, env) => if env.Some? then env.value else map[]
    case Registry(_) => map[]
  }

  /**
   * `execPath` is never nil: the path of an executable or the registry
   * command. A registry command has no arguments and an empty environment.
   */
  lemma AccessorCases(c: LanguageServerConfiguration)
    ensures ExecPath(c).Some?
    ensures c.Exec? ==> ExecPath(c) == Some(c.path) && Args(c) == c.args
    ensures c.Exec? && c.env.Some? ==> Env(c) == c.env.value
    ensures c.Exec? && c.env.None? ==> Env(c) == map[]
    ensures c.Registry? ==> ExecPath(c) == Some(c.command) && Args(c) == [] && Env(c) == map[]
  {
  }

  /**
   * The accessors lose nothing of an executable with an environment: they
   * rebuild it. An absent environment reads the same as an empty one.
   */
  lemma AccessorsRebuildExec(c: LanguageServerConfiguration)
    requires c.Exec?
    ensures c.env.Some? ==> Exec(ExecPath(c).value, Args(c), Some(Env(c))) == c
    ensures Env(Exec(c.path, c.args, None)) == Env(Exec(c.path, c.args, Some(map[])))
  {
  }
}
