/**
 * What is needed to start a shell, and how a `Process` is set up to run
 * one command in it.
 */
module ShellConfig {
  import opened Wrappers
  import opened Shells

  datatype ShellConfiguration = ShellConfiguration(profile: Shell, path: Option<string>)

  predicate IsSh(c: ShellConfiguration)
  {
    match c.profile
    case Bash | Zsh => true
    case Fish => false
  }

  /** The sh-compatible shells are exactly those with a default path. */
  lemma IsShIffDefaultPath(c: ShellConfiguration)
    ensures IsSh(c) <==> DefaultPath(c.profile).Some?
  {
  }

  datatype ShellExecError = NoPath

  /** `shell.path ?? shell.profile.defaultPath`. */
  function ExecutablePath(shell: ShellConfiguration): Option<string>
  {
    match shell.path
    case Some(p) => Some(p)
    case None => DefaultPath(shell.profile)
  }

  /**
   * An explicit path wins; otherwise the profile's default is used. There
   * is no path exactly for fish without an explicit path.
   */
  lemma ExecutablePathCases(shell: ShellConfiguration)
    ensures shell.path.Some? ==> ExecutablePath(shell) == shell.path
    ensures shell.path.None? ==> ExecutablePath(shell) == DefaultPath(shell.profile)
    ensures ExecutablePath(shell).None? <==> shell.path.None? && shell.profile == Fish
  {
  }

  /** The arguments a command is run with: a login shell running `command`. */
  function LoginArguments(command: string): (args: seq<string>)
    ensures |args| == 3 && args[2] == command
  {
    ["--login", "-c", command]
  }

  /** A pipe; only its identity matters here. */
  class Pipe {
    constructor ()
    {
    }
  }

  /** The fields of Foundation's `Process` that are set before it runs. */
  class Process {
    var environment: Option<map<string, string>>
    var executableURL: Option<string>
    var arguments: Option<seq<string>>
    var standardOutput: Option<Pipe>
    var standardError: Option<Pipe>

    /** A process with nothing set. */
    constructor ()
      ensures environment.None? && executableURL.None? && arguments.None?
      ensures standardOutput.None? && standardError.None?
    {
      environment := None;
      executableURL := None;
      arguments := None;
      standardOutput := None;
      standardError := None;
    }
  }

  /**
   * `executeCommandWithShell`, up to the point where the process is run.
   * The environment is set first, so it is set even when there is no path.
   */
  method ExecuteCommandWithShell(
    process: Process,
    command: string,
    environmentVariables: Option<map<string, string>>,
    shell: ShellConfiguration,
    outputPipe: Pipe
  ) returns (r: Result<(), ShellExecError>)
    modifies process
    ensures process.environment == environmentVariables
    ensures r == Failure(NoPath) <==> ExecutablePath(shell).None?
    ensures r.Failure? ==>
      process.executableURL == old(process.executableURL)
      && process.arguments == old(process.arguments)
      && process.standardOutput == old(process.standardOutput)
      && process.standardError == old(process.standardError)
    ensures r.Success? ==>
      process.executableURL == ExecutablePath(shell)
      && process.arguments == Some(LoginArguments(command))
      && process.standardOutput == Some(outputPipe)
      && process.standardError == process.standardOutput
  {
    process.environment := environmentVariables;
    var path := ExecutablePath(shell);
    if path.None? {
      return Failure(NoPath);
    }
    process.executableURL := Some(path.value);
    process.arguments := Some(LoginArguments(command));
    process.standardOutput := Some(outputPipe);
    process.standardError := Some(outputPipe);
    r := Success(());
  }

  /** Running a command in fish with no explicit path fails. */
  method FishWithoutPathExample(command: string) returns (r: Result<(), ShellExecError>)
    ensures r == Failure(NoPath)
  {
    var process := new Process();
    var pipe := new Pipe();
    r := ExecuteCommandWithShell(process, command, Some(map["PATH" := "/usr/bin"]), ShellConfiguration(Fish, None), pipe);
  }
}
