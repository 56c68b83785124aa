/**
 * A language server binary: how it is executed, and the process
 * parameters built from it.
 */
module LanguageServerBinary {
  import opened Wrappers

  datatype ExecType =
    | Executable(path: string)
    | ShellCommand(command: string)

  /** The shell a shell command is handed to. */
  const ShellPath: string := "/bin/zsh"

  /** `ExecType.path`: the program to start. */
  function Path(e: ExecType): string
  {
    match e
    case Executable(path) => path
    case ShellCommand(_) => ShellPath
  }

  /** `ExecType.args`: the arguments the execution type itself contributes. */
  function Args(e: ExecType): seq<string>
  {
    match e
    case Executable(_) => []
    case ShellCommand(command) => [command]
  }

  /**
   * An executable is started directly with no arguments of its own; a
   * shell command is handed to zsh as its single argument.
   */
  lemma ExecTypeCases(e: ExecType)
    ensures e.Executable? ==> Path(e) == e.path && Args(e) == []
    ensures e.ShellCommand? ==> Path(e) == ShellPath && Args(e) == [e.command]
    ensures |Args(e)| <= 1
  {
  }

  /**
   * A configuration. Its `initializationOptions` are free-form JSON that
   * the process parameters do not read, so they are not part of this model.
   */
  datatype LanguageServerConfiguration = LanguageServerConfiguration(
    exec: ExecType,
    args: seq<string>,
    env: Option<map<string, string>>)

  /** `Process.ExecutionParameters`; the directory URL is kept as its path. */
  datatype ExecutionParameters = ExecutionParameters(
    path: string,
    arguments: seq<string>,
    environment: Option<map<string, string>>,
    currentDirectoryURL: Option<string>)

  function ProcessParameters(c: LanguageServerConfiguration, dir: Option<string>): ExecutionParameters
  {
    ExecutionParameters(Path(c.exec), Args(c.exec) + c.args, c.env, dir)
  }

  /**
   * The execution type's arguments come first and the configured ones after
   * them, unchanged; path, environment and directory are copied.
   */
  lemma ProcessParametersShape(c: LanguageServerConfiguration, dir: Option<string>)
    ensures var p := ProcessParameters(c, dir);
      && p.path == Path(c.exec)
      && |p.arguments| == |Args(c.exec)| + |c.args|
      && p.arguments[..|Args(c.exec)|] == Args(c.exec)
      && p.arguments[|Args(c.exec)|..] == c.args
      && p.environment == c.env
      && p.currentDirectoryURL == dir
    ensures c.exec.Executable? ==> ProcessParameters(c, dir).arguments == c.args
    ensures c.exec.ShellCommand? ==>
      ProcessParameters(c, dir).arguments[0] == c.exec.command
      && ProcessParameters(c, dir).arguments[1..] == c.args
  {
    var p := ProcessParameters(c, dir);
    assert p.arguments == Args(c.exec) + c.args;
  }
}
