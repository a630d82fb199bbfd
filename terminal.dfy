/**
  `TerminalManager.execute_command`: run one command line through the
  configured shell in a separate process, optionally waiting for it with
  the polling loop, and report `(success, output_lines)`.
*/
module Terminal {
  import opened Text
  import opened Processes

  /**
    The process command line for `command`: PowerShell when the shell name
    is "powershell" in any letter case, `cmd.exe /C` for anything else.
  */
  function ShellArgv(shell: string, command: string): (argv: seq<string>)
    ensures |argv| == 3 && argv[2] == command
    ensures argv[0] == "powershell.exe" <==> Lower(shell) == "powershell"
    ensures argv[0] != "powershell.exe" ==> argv[..2] == ["cmd.exe", "/C"]
    ensures argv[0] == "powershell.exe" ==> argv[1] == "-Command"
  {
    if Lower(shell) == "powershell" then ["powershell.exe", "-Command", command]
    else ["cmd.exe", "/C", command]
  }

  /** The shell is chosen by name without regard to letter case. */
  lemma ShellNameCaseInsensitive(command: string)
    ensures ShellArgv("PowerShell", command) == ShellArgv("powershell", command)
    ensures ShellArgv("POWERSHELL", command) == ShellArgv("powershell", command)
    ensures ShellArgv("cmd", command) == ["cmd.exe", "/C", command]
  {
    assert Lower("PowerShell") == "powershell";
    assert Lower("POWERSHELL") == "powershell";
    assert Lower("cmd") == "cmd";
  }

  /**
    What `execute_command` reports for `argv`, polled against `limit` ticks
    when `wait` is set. Without waiting, a command that starts is a success
    with no output. Waiting, a command that cannot start or is killed for
    running too long fails with no output; one that exits 0 succeeds with
    its standard output split into lines; any other exit code fails with
    the standard output lines followed by the standard error lines.
  */
  function CommandOutcome(env: Env, argv: seq<string>, wait: bool, limit: nat): (r: (bool, seq<string>))
    ensures !wait ==> r == (argv in env.procs, [])
    ensures wait ==> (r.0 <==> ExitedOk(Spawn(env, argv, limit)))
    ensures wait && !Spawn(env, argv, limit).Exited? ==> r.1 == []
    ensures wait && Spawn(env, argv, limit).Exited? ==>
      var c := Spawn(env, argv, limit);
      r.1 == SplitLines(c.out) + (if c.code == 0 then [] else SplitLines(c.err))
  {
    if !wait then (argv in env.procs, [])
    else
      match Spawn(env, argv, limit)
      case NotLaunched => (false, [])
      case TimedOut(_) => (false, [])
      case Exited(code, out, err) =>
        if code == 0 then (true, SplitLines(out)) else (false, SplitLines(out) + SplitLines(err))
  }

  /**
    A longer timeout never turns a success into a failure, and a command
    that finishes in time reports the same lines under any longer timeout.
  */
  lemma LongerTimeoutKeepsOutcome(env: Env, argv: seq<string>, limit: nat, longer: nat)
    requires limit <= longer
    requires Spawn(env, argv, limit).Exited?
    ensures CommandOutcome(env, argv, true, longer) == CommandOutcome(env, argv, true, limit)
  {
  }

  /** A successful waited command's lines come from its standard output alone. */
  lemma SuccessHasNoErrorLines(env: Env, argv: seq<string>, limit: nat)
    requires CommandOutcome(env, argv, true, limit).0
    ensures argv in env.procs && env.procs[argv].code == 0 && env.procs[argv].ticks <= limit + 1
    ensures CommandOutcome(env, argv, true, limit).1 == SplitLines(env.procs[argv].out)
  {
  }

  /**
    The manager of the script's terminal. Only the command runner is
    modelled: the persistent console window that `launch_terminal` opens
    and tracks is not.
  */
  class TerminalManager {
    /** "powershell" or "cmd". */
    const shell: string
    const visible: bool
    /** The machine, including the project folder the commands run in. */
    const env: Env

    constructor(shell: string, visible: bool, env: Env)
      ensures this.shell == shell && this.visible == visible && this.env == env
    {
      this.shell := shell;
      this.visible := visible;
      this.env := env;
    }

    /**
      `execute_command(command, wait, timeout)`, the timeout in seconds: the
      shell's command line is launched and, when waiting, polled until it
      exits or the timeout has passed.
    */
    method ExecuteCommand(command: string, wait: bool, timeout: nat) returns (success: bool, lines: seq<string>)
      ensures (success, lines) == CommandOutcome(env, ShellArgv(shell, command), wait, timeout * TICKS_PER_SECOND)
      ensures success && wait ==> ExitedOk(Spawn(env, ShellArgv(shell, command), timeout * TICKS_PER_SECOND))
    {
      var argv := ShellArgv(shell, command);
      if !wait {
        // Popen without waiting: only a failure to start is reported
        return argv in env.procs, [];
      }
      var c := RunPolled(env, argv, timeout * TICKS_PER_SECOND);
      match c
      case NotLaunched =>
        return false, [];
      case TimedOut(_) =>
        return false, [];
      case Exited(code, out, err) =>
        var outputLines := SplitLines(out);
        var errorLines := SplitLines(err);
        if code == 0 {
          return true, outputLines;
        }
        return false, outputLines + errorLines;
    }
  }
}
