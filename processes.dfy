/**
  The machine the installer runs on, as data, and the two ways the script
  runs a child process: a blocking `subprocess.run(..., timeout=5)` probe and
  the non-blocking `Popen` + `poll()` loop that keeps the host application's
  frame loop alive.

  Time is counted in polls: one tick is one 10 ms `time.sleep(0.01)` of the
  polling loop, so a timeout of T seconds is T * 100 ticks.
*/
module Processes {

  /** How a command behaves once launched: how long it runs, and what it reports. */
  datatype Proc = Proc(ticks: nat, code: int, out: string, err: string)

  /**
    Everything the script reads from its surroundings: `os.name == 'nt'`,
    `os.getcwd()` (the project folder), the LOCALAPPDATA and PROGRAMFILES
    variables ("" when unset), the embedded interpreter's
    `sys.version_info` major and minor, and the behaviour of every command
    line that can be launched (a command line that is absent cannot be
    started: missing executable, permission error).
  */
  datatype Env = Env(
    windows: bool,
    cwd: string,
    localAppData: string,
    programFiles: string,
    major: nat,
    minor: nat,
    procs: map<seq<string>, Proc>)

  /** What became of one child process. */
  datatype Completion =
    | NotLaunched
    | TimedOut(killedAfter: nat)
    | Exited(code: int, out: string, err: string)

  const TICKS_PER_SECOND: nat := 100
  /** `subprocess.run(..., timeout=5)` in the probes. */
  const PROBE_TIMEOUT: nat := 5 * TICKS_PER_SECOND

  predicate ExitedOk(c: Completion) { c.Exited? && c.code == 0 }

  /**
    `subprocess.run(argv, capture_output=True, text=True, timeout=5)`: a
    process that outlives the timeout raises TimeoutExpired, as does one
    that cannot be started; every caller treats both as "no answer".
  */
  function Probe(env: Env, argv: seq<string>): (c: Completion)
    ensures c.Exited? <==> argv in env.procs && env.procs[argv].ticks <= PROBE_TIMEOUT
    ensures c.Exited? ==> c.code == env.procs[argv].code && c.out == env.procs[argv].out
  {
    if argv !in env.procs then NotLaunched
    else
      var p := env.procs[argv];
      if p.ticks > PROBE_TIMEOUT then TimedOut(PROBE_TIMEOUT) else Exited(p.code, p.out, p.err)
  }

  /**
    The outcome of launching `argv` and polling it every tick against a
    limit of `limit` ticks; the reference for RunPolled.
  */
  function Spawn(env: Env, argv: seq<string>, limit: nat): (c: Completion)
    ensures c.NotLaunched? <==> argv !in env.procs
    ensures c.TimedOut? <==> argv in env.procs && env.procs[argv].ticks > limit + 1
    ensures c.TimedOut? ==> c.killedAfter == limit + 1
    ensures c.Exited? ==> c == Exited(env.procs[argv].code, env.procs[argv].out, env.procs[argv].err)
  {
    if argv !in env.procs then NotLaunched
    else
      var p := env.procs[argv];
      if p.ticks <= limit + 1 then Exited(p.code, p.out, p.err) else TimedOut(limit + 1)
  }

  /**
    Launch `argv` and poll it without blocking, once per tick; once more
    than `limit` ticks have passed, the child is killed and a timeout is
    reported. A process still running once more than `limit` ticks have passed is
    killed on the next poll, so a timed-out call gives up after exactly
    `limit + 1` ticks: within the timeout plus one poll interval.
  */
  method RunPolled(env: Env, argv: seq<string>, limit: nat) returns (c: Completion)
    ensures c == Spawn(env, argv, limit)
    ensures c.NotLaunched? <==> argv !in env.procs
    ensures c.TimedOut? ==> c.killedAfter == limit + 1 && env.procs[argv].ticks > limit + 1
    ensures c.Exited? ==> env.procs[argv].ticks <= limit + 1 && c.code == env.procs[argv].code
  {
    if argv !in env.procs {
      return NotLaunched;
    }
    var p := env.procs[argv];
    var elapsed: nat := 0;
    // poll() answers None while the process has run for fewer ticks than it needs
    while elapsed < p.ticks
      invariant elapsed <= p.ticks
      invariant elapsed <= limit + 1
    {
      if elapsed > limit {
        return TimedOut(elapsed);
      }
      elapsed := elapsed + 1;
    }
    return Exited(p.code, p.out, p.err);
  }
}
