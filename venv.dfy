/**
  The virtual environment in the project folder: checking that an existing
  one was made with the host's interpreter version, creating (or
  re-creating) it with a standalone interpreter, installing numpy into it,
  and putting its site-packages directory on the module search path.

  The disk is the set of paths that exist. Deleting the old environment
  either succeeds and removes everything under its folder, or fails and
  changes nothing (`removeOk`); the files that `python -m venv` writes are
  the parameter `made`.
*/
module Venv {
  import opened Wrappers
  import opened Text
  import opened Versions
  import opened Processes
  import opened Locator
  import opened Terminal

  // ----- paths -----

  function VenvDir(env: Env): string {
    JoinPath(env.cwd, "venv")
  }

  function InScripts(env: Env, name: string): string {
    JoinPath(JoinPath(VenvDir(env), "Scripts"), name)
  }

  function VenvPython(env: Env): string { InScripts(env, "python.exe") }
  function Activate(env: Env): string { InScripts(env, "activate.bat") }
  function Pip(env: Env): string { InScripts(env, "pip.exe") }

  function SitePackages(env: Env): string {
    JoinPath(JoinPath(VenvDir(env), "Lib"), "site-packages")
  }

  /** `p` is the folder `dir` itself or lies somewhere below it. */
  predicate Under(p: string, dir: string) {
    p == dir || (|dir| < |p| && p[..|dir|] == dir && IsPathSep(p[|dir|]))
  }

  /** The disk after a successful `shutil.rmtree(dir)`. */
  function RemoveTree(files: set<string>, dir: string): (r: set<string>)
    ensures r <= files
    ensures forall p :: p in r <==> p in files && !Under(p, dir)
  {
    set p | p in files && !Under(p, dir)
  }

  // ----- the version of an existing environment -----

  /**
    `check_venv_python_version`: the "major.minor" read from the venv
    interpreter's stripped `--version` report, and the report itself.
  */
  datatype VenvVersion = VenvVersion(version: Option<string>, full: Option<string>)

  function VenvPythonVersion(env: Env, files: set<string>): (r: VenvVersion)
    ensures r.full.None? <==> VenvPython(env) !in files || !ExitedOk(Probe(env, [VenvPython(env), "--version"]))
    ensures r.full.Some? ==> r.full.value == Strip(Probe(env, [VenvPython(env), "--version"]).out)
    ensures r.full.Some? ==> r.version == SearchMajorMinor(r.full.value)
    ensures r.version.Some? ==> r.full.Some? && IsMajorMinor(r.version.value) && Contains(r.full.value, r.version.value)
    ensures r.full.None? ==> r.version.None?
  {
    var exe := VenvPython(env);
    if exe !in files then VenvVersion(None, None)
    else
      var c := Probe(env, [exe, "--version"]);
      if c.Exited? && c.code == 0 then
        var full := Strip(c.out);
        VenvVersion(SearchMajorMinor(full), Some(full))
      else VenvVersion(None, None)
  }

  /**
    `check_venv_exists`: the environment is there (its activation script
    exists) and no version read from its interpreter differs from the
    host's "major.minor". When no version can be read the environment
    is taken as it is.
  */
  predicate VenvValid(env: Env, files: set<string>) {
    && Activate(env) in files
    && var v := VenvPythonVersion(env, files).version;
       v.None? || v.value == Target(env)
  }

  /**
    A venv whose interpreter is missing, silent or failing, or answers with
    a report holding no "major.minor", still counts as valid once
    activate.bat is there.
  */
  lemma ValidWithoutVersion(env: Env, files: set<string>)
    requires Activate(env) in files
    requires || VenvPython(env) !in files
             || !ExitedOk(Probe(env, [VenvPython(env), "--version"]))
             || SearchMajorMinor(Strip(Probe(env, [VenvPython(env), "--version"]).out)).None?
    ensures VenvValid(env, files)
  {
  }

  /** With no activation script there is no valid environment, whatever else exists. */
  lemma InvalidWithoutActivate(env: Env, files: set<string>)
    requires Activate(env) !in files
    ensures !VenvValid(env, files)
  {
  }

  /**
    A venv interpreter that answers "Python a.b.p"-style reports (digit-free
    text, then "a.b", then text that does not continue the minor number)
    makes the environment valid exactly when a.b is the host's version.
  */
  lemma {:induction false} ValidIffReportedVersionMatches(env: Env, files: set<string>, prefix: string, a: nat, b: nat, rest: string)
    requires Activate(env) in files && VenvPython(env) in files
    requires ExitedOk(Probe(env, [VenvPython(env), "--version"]))
    requires Strip(Probe(env, [VenvPython(env), "--version"]).out) == prefix + TargetVersion(a, b) + rest
    requires forall k :: 0 <= k < |prefix| ==> !IsDigit(prefix[k])
    requires rest == [] || !IsDigit(rest[0])
    ensures VenvValid(env, files) <==> a == env.major && b == env.minor
  {
    SearchReadsReport(prefix, a, b, rest);
    assert VenvPythonVersion(env, files).version == Some(TargetVersion(a, b));
    if TargetVersion(a, b) == Target(env) {
      TargetVersionInjective(a, b, env.major, env.minor);
    }
  }

  // ----- creating the environment -----

  /** The `-m venv` command line: appended to the launcher's tokens, or after the executable path. */
  function CreationArgv(interp: Interpreter, venv: string): (argv: seq<string>)
    ensures |argv| >= 3 && argv[|argv| - 3..] == ["-m", "venv", venv]
    ensures interp.Exe? ==> argv[..|argv| - 3] == [interp.path]
    ensures interp.Launcher? ==> argv[..|argv| - 3] == interp.argv
  {
    match interp
    case Exe(p) => [p, "-m", "venv", venv]
    case Launcher(cmd) => cmd + ["-m", "venv", venv]
  }

  /** The decision `create_venv` reaches. */
  datatype Creation =
    | AlreadyValid
    | RemoveFailed
    | NoInterpreter
    | Ran(argv: seq<string>, result: Completion)

  /** `create_venv` waits up to 60 seconds for `-m venv`. */
  const CREATE_TIMEOUT: nat := 60 * TICKS_PER_SECOND

  /** The disk `find_system_python` sees once the old environment is gone (or was never there). */
  function Cleared(env: Env, files: set<string>): set<string> {
    if VenvDir(env) in files then RemoveTree(files, VenvDir(env)) else files
  }

  /**
    `create_venv(force_recreate=force)`: skip a valid environment unless
    forced; otherwise delete the old folder (failing if that fails), find an
    interpreter (failing if there is none) and run `-m venv` with it.
  */
  function CreatePlan(env: Env, files: set<string>, force: bool, removeOk: bool): Creation {
    if !force && VenvValid(env, files) then AlreadyValid else ClearAndRun(env, files, removeOk)
  }

  /** Everything after the validity check: delete the old folder, then locate and run. */
  function ClearAndRun(env: Env, files: set<string>, removeOk: bool): Creation {
    if VenvDir(env) in files && !removeOk then RemoveFailed else LocateAndRun(env, Cleared(env, files))
  }

  /** The second half of `create_venv`: find an interpreter on the cleared disk and run `-m venv` with it. */
  function LocateAndRun(env: Env, cleared: set<string>): (plan: Creation)
    ensures plan.NoInterpreter? || plan.Ran?
  {
    match Locate(env, cleared)
    case None => NoInterpreter
    case Some(interp) =>
      var argv := CreationArgv(interp, VenvDir(env));
      Ran(argv, Spawn(env, argv, CREATE_TIMEOUT))
  }

  predicate CreateSucceeded(plan: Creation) {
    plan.AlreadyValid? || (plan.Ran? && ExitedOk(plan.result))
  }

  /** The disk after `create_venv`; `made` is what a successful `-m venv` writes. */
  function FilesAfterCreate(env: Env, files: set<string>, force: bool, removeOk: bool, made: set<string>): set<string> {
    if !force && VenvValid(env, files) then files else FilesAfterClear(env, files, removeOk, made)
  }

  function FilesAfterClear(env: Env, files: set<string>, removeOk: bool, made: set<string>): set<string> {
    if VenvDir(env) in files && !removeOk then files else FilesAfterRun(env, Cleared(env, files), made)
  }

  function FilesAfterRun(env: Env, cleared: set<string>, made: set<string>): set<string> {
    if CreateSucceeded(LocateAndRun(env, cleared)) then cleared + made else cleared
  }

  /** A valid environment without the force flag is kept as it is: nothing is deleted and no interpreter is sought. */
  lemma CreateKeepsValidVenv(env: Env, files: set<string>, removeOk: bool, made: set<string>)
    requires VenvValid(env, files)
    ensures CreatePlan(env, files, false, removeOk) == AlreadyValid
    ensures CreateSucceeded(CreatePlan(env, files, false, removeOk))
    ensures FilesAfterCreate(env, files, false, removeOk, made) == files
  {
  }

  /**
    Forcing, or an invalid environment, always deletes an existing old
    folder first: unless the deletion fails, nothing under it survives into
    the search for an interpreter or the result.
  */
  lemma CreateRemovesOldVenv(env: Env, files: set<string>, force: bool, removeOk: bool, made: set<string>, p: string)
    requires force || !VenvValid(env, files)
    requires CreatePlan(env, files, force, removeOk) != RemoveFailed
    requires VenvDir(env) in files
    requires p in files && Under(p, VenvDir(env))
    ensures CreatePlan(env, files, force, removeOk) != AlreadyValid
    ensures removeOk && p !in Cleared(env, files)
    ensures p in FilesAfterCreate(env, files, force, removeOk, made) ==> p in made
  {
  }

  /**
    A failed deletion or a failed search ends `create_venv` with failure
    before any creation command runs; in the second case the old
    environment has already been deleted.
  */
  lemma CreateFailuresRunNothing(env: Env, files: set<string>, force: bool, removeOk: bool, made: set<string>)
    requires !CreatePlan(env, files, force, removeOk).Ran?
    requires CreatePlan(env, files, force, removeOk) != AlreadyValid
    ensures !CreateSucceeded(CreatePlan(env, files, force, removeOk))
    ensures CreatePlan(env, files, force, removeOk) == RemoveFailed <==> VenvDir(env) in files && !removeOk
    ensures CreatePlan(env, files, force, removeOk) == RemoveFailed ==> FilesAfterCreate(env, files, force, removeOk, made) == files
    ensures CreatePlan(env, files, force, removeOk) == NoInterpreter ==>
      Locate(env, Cleared(env, files)).None? && FilesAfterCreate(env, files, force, removeOk, made) == Cleared(env, files)
  {
    assert !(!force && VenvValid(env, files));
    ClearFailuresRunNothing(env, files, removeOk, made);
  }

  /** The same, for the steps after the validity check. */
  lemma ClearFailuresRunNothing(env: Env, files: set<string>, removeOk: bool, made: set<string>)
    requires !ClearAndRun(env, files, removeOk).Ran?
    ensures ClearAndRun(env, files, removeOk) == RemoveFailed <==> VenvDir(env) in files && !removeOk
    ensures ClearAndRun(env, files, removeOk) == RemoveFailed ==> FilesAfterClear(env, files, removeOk, made) == files
    ensures ClearAndRun(env, files, removeOk) == NoInterpreter ==>
      Locate(env, Cleared(env, files)).None? && FilesAfterClear(env, files, removeOk, made) == Cleared(env, files)
  {
    if !(VenvDir(env) in files && !removeOk) {
      var cleared := Cleared(env, files);
      assert ClearAndRun(env, files, removeOk) == LocateAndRun(env, cleared);
      assert !CreateSucceeded(LocateAndRun(env, cleared));
    }
  }

  /**
    A creation command is run only with the interpreter the locator found
    on the cleared disk, and creation succeeds only when it exits 0 within
    the 60-second limit.
  */
  lemma CreateRunsLocatedInterpreter(env: Env, files: set<string>, force: bool, removeOk: bool)
    requires CreatePlan(env, files, force, removeOk).Ran?
    ensures Locate(env, Cleared(env, files)).Some?
    ensures CreatePlan(env, files, force, removeOk).argv == CreationArgv(Locate(env, Cleared(env, files)).value, VenvDir(env))
    ensures CreateSucceeded(CreatePlan(env, files, force, removeOk)) <==>
      var argv := CreatePlan(env, files, force, removeOk).argv;
      argv in env.procs && env.procs[argv].code == 0 && env.procs[argv].ticks <= CREATE_TIMEOUT + 1
  {
  }

  /** With only the launcher available, the command is `py -3.9 -m venv <folder>`. */
  lemma LauncherCreationArgv(venv: string)
    ensures CreationArgv(Launcher(["py", "-3.9"]), venv) == ["py", "-3.9", "-m", "venv", venv]
  {
  }

  /** A successful creation leaves the cleared disk plus what `-m venv` wrote. */
  lemma CreatedFilesAdded(env: Env, files: set<string>, force: bool, removeOk: bool, made: set<string>)
    requires CreatePlan(env, files, force, removeOk).Ran? && CreateSucceeded(CreatePlan(env, files, force, removeOk))
    ensures FilesAfterCreate(env, files, force, removeOk, made) == Cleared(env, files) + made
  {
    assert !(!force && VenvValid(env, files));
    assert !(VenvDir(env) in files && !removeOk);
    var cleared := Cleared(env, files);
    assert CreateSucceeded(LocateAndRun(env, cleared));
    assert FilesAfterClear(env, files, removeOk, made) == FilesAfterRun(env, cleared, made);
  }

  /**
    The machine once `-m venv` has written a new interpreter into the
    folder: the same machine, except that the venv's `python.exe --version`
    now gives the new interpreter's answer `report`.
  */
  function Recreated(env: Env, report: Proc): (later: Env)
    ensures later.cwd == env.cwd && later.major == env.major && later.minor == env.minor
    ensures later.windows == env.windows && later.localAppData == env.localAppData && later.programFiles == env.programFiles
    ensures forall argv :: argv != [VenvPython(env), "--version"] ==>
      (argv in later.procs <==> argv in env.procs) && (argv in env.procs ==> later.procs[argv] == env.procs[argv])
    ensures Probe(later, [VenvPython(env), "--version"]).Exited? <==> report.ticks <= PROBE_TIMEOUT
    ensures report.ticks <= PROBE_TIMEOUT ==> Probe(later, [VenvPython(env), "--version"]) == Exited(report.code, report.out, report.err)
  {
    env.(procs := env.procs[[VenvPython(env), "--version"] := report])
  }

  /**
    Running `create_venv` again after it succeeded skips the work, provided
    the new environment has its activation script and its new interpreter
    reports the host's version ("Python 3.9.5" on a 3.9 host, say), whatever
    the deleted interpreter used to report.
  */
  lemma {:induction false} CreateThenKeep(env: Env, files: set<string>, force: bool, removeOk: bool, made: set<string>, report: Proc, prefix: string, rest: string)
    requires CreatePlan(env, files, force, removeOk).Ran? && CreateSucceeded(CreatePlan(env, files, force, removeOk))
    requires Activate(env) in made && VenvPython(env) in made
    requires report.code == 0 && report.ticks <= PROBE_TIMEOUT
    requires Strip(report.out) == prefix + Target(env) + rest
    requires forall k :: 0 <= k < |prefix| ==> !IsDigit(prefix[k])
    requires rest == [] || !IsDigit(rest[0])
    ensures CreatePlan(Recreated(env, report), FilesAfterCreate(env, files, force, removeOk, made), false, removeOk) == AlreadyValid
  {
    CreatedFilesAdded(env, files, force, removeOk, made);
    var after := FilesAfterCreate(env, files, force, removeOk, made);
    var later := Recreated(env, report);
    assert VenvDir(later) == VenvDir(env) && Target(later) == Target(env);
    assert Activate(later) in after && VenvPython(later) in after;
    assert Probe(later, [VenvPython(later), "--version"]) == Exited(report.code, report.out, report.err);
    ValidIffReportedVersionMatches(later, after, prefix, env.major, env.minor, rest);
  }

  // ----- numpy -----

  /** `install_numpy_in_venv` waits up to 300 seconds for pip. */
  const INSTALL_TIMEOUT_SECONDS: nat := 300

  /** The command given to the terminal's shell: the pip path with forward slashes, both arguments quoted. */
  function TerminalInstallCommand(pip: string, req: string): (cmd: string)
    ensures |cmd| == 15 + |pip| + |req| && cmd[..2] == "& "
    ensures var p := ReplaceChar(pip, '\\', '/'); OccursAt(cmd, "\"" + p + "\"", 2)
    ensures OccursAt(cmd, " install ", 4 + |pip|)
    ensures EndsWith(cmd, "\"" + req + "\"")
  {
    var quotedPip := "\"" + ReplaceChar(pip, '\\', '/') + "\"";
    var quotedReq := "\"" + req + "\"";
    var cmd := "& " + quotedPip + " install " + quotedReq;
    assert cmd[..2] == "& ";
    assert cmd[2..2 + |quotedPip|] == quotedPip;
    assert cmd[2 + |quotedPip|..2 + |quotedPip| + 9] == " install ";
    assert cmd[|cmd| - |quotedReq|..] == quotedReq;
    cmd
  }

  /** The pip path in the terminal command has no backslash left. */
  lemma TerminalPipPathHasNoBackslash(pip: string)
    ensures '\\' !in ReplaceChar(pip, '\\', '/')
  {
  }

  /**
    What `install_numpy_in_venv` returns: false without `Scripts\pip.exe`;
    otherwise pip installs the requirement chosen from the host version,
    through the terminal's shell when a terminal is given (`shell`) or
    directly, and the install succeeds when that run exits 0 in time.
  */
  function InstallResult(env: Env, files: set<string>, shell: Option<string>): bool {
    if Pip(env) !in files then false
    else
      var req := NumpyRequirement(Target(env));
      match shell
      case Some(sh) =>
        CommandOutcome(env, ShellArgv(sh, TerminalInstallCommand(Pip(env), req)), true, INSTALL_TIMEOUT_SECONDS * TICKS_PER_SECOND).0
      case None =>
        ExitedOk(Spawn(env, [Pip(env), "install", req], INSTALL_TIMEOUT_SECONDS * TICKS_PER_SECOND))
  }

  /**
    Without pip nothing is installed; a direct install succeeds exactly when
    `pip install <req>` exits 0 within the time limit, `<req>` pinning
    numpy below 2.0 for a 3.9 host only.
  */
  lemma InstallNeedsPipAndExitZero(env: Env, files: set<string>)
    ensures Pip(env) !in files ==> !InstallResult(env, files, None)
    ensures Pip(env) in files ==>
      var argv := [Pip(env), "install", NumpyRequirement(Target(env))];
      (InstallResult(env, files, None) <==>
        argv in env.procs && env.procs[argv].code == 0 && env.procs[argv].ticks <= INSTALL_TIMEOUT_SECONDS * TICKS_PER_SECOND + 1)
    ensures NumpyRequirement(Target(env)) == "numpy<2.0" <==> env.major == 3 && env.minor == 9
  {
    NumpyPinnedOnlyFor39(env.major, env.minor);
  }

  /**
    Through a terminal the install succeeds exactly when pip exists and the
    shell's command line exits 0 within the time limit.
  */
  lemma InstallThroughTerminal(env: Env, files: set<string>, shell: string)
    ensures InstallResult(env, files, Some(shell)) <==>
      && Pip(env) in files
      && var argv := ShellArgv(shell, TerminalInstallCommand(Pip(env), NumpyRequirement(Target(env))));
         argv in env.procs && env.procs[argv].code == 0
         && env.procs[argv].ticks <= INSTALL_TIMEOUT_SECONDS * TICKS_PER_SECOND + 1
  {
  }

  // ----- the module search path -----

  /** Put `p` at the front of the search path unless it is already somewhere on it. */
  function PrependOnce(path: seq<string>, p: string): (r: seq<string>)
    ensures p in r
    ensures p !in path ==> r[0] == p
    ensures multiset(r) == multiset(path) + (if p in path then multiset{} else multiset{p})
    ensures p !in path ==> r[1..] == path
    ensures p in path ==> r == path
  {
    if p in path then path else [p] + path
  }

  /** Adding the same entry again changes nothing. */
  lemma PrependOnceIdempotent(path: seq<string>, p: string)
    ensures PrependOnce(PrependOnce(path, p), p) == PrependOnce(path, p)
  {
  }

  /** Starting without the entry, any number of additions leave exactly one copy of it at the front. */
  lemma {:induction false} RepeatedPrependKeepsOneCopy(path: seq<string>, p: string, n: nat)
    requires p !in path
    ensures var r := PrependRepeat(path, p, n + 1);
      r == [p] + path && multiset(r)[p] == 1
    decreases n
  {
    if n > 0 {
      RepeatedPrependKeepsOneCopy(path, p, n - 1);
    }
    assert multiset([p] + path) == multiset{p} + multiset(path);
  }

  function PrependRepeat(path: seq<string>, p: string, n: nat): seq<string>
    decreases n
  {
    if n == 0 then path else PrependOnce(PrependRepeat(path, p, n - 1), p)
  }

  // ----- the workspace -----

  /**
    The state the script changes: the files on disk and the interpreter's
    module search path `sys.path`.
  */
  class Workspace {
    const env: Env
    var files: set<string>
    var sysPath: seq<string>

    constructor(env: Env, files: set<string>, sysPath: seq<string>)
      ensures this.env == env && this.files == files && this.sysPath == sysPath
    {
      this.env := env;
      this.files := files;
      this.sysPath := sysPath;
    }

    /** `check_venv_exists` on the current disk. */
    method CheckVenvExists() returns (ok: bool)
      ensures ok == VenvValid(env, files)
      ensures ok ==> Activate(env) in files
    {
      if Activate(env) !in files {
        return false;
      }
      var v := VenvPythonVersion(env, files);
      if v.version.Some? && v.version.value != Target(env) {
        return false;
      }
      return true;
    }

    /**
      `create_venv(force_recreate=force)`. `removeOk` says whether deleting
      the old folder succeeds; `made` is what `-m venv` writes.
    */
    method CreateVenv(force: bool, removeOk: bool, made: set<string>) returns (ok: bool)
      modifies this`files
      ensures ok == CreateSucceeded(CreatePlan(env, old(files), force, removeOk))
      ensures files == FilesAfterCreate(env, old(files), force, removeOk, made)
    {
      if !force {
        var valid := CheckVenvExists();
        if valid {
          return true;
        }
      }
      ok := ClearAndCreate(removeOk, made);
    }

    /** Delete the old folder if there is one, then locate an interpreter and create. */
    method ClearAndCreate(removeOk: bool, made: set<string>) returns (ok: bool)
      modifies this`files
      ensures ok == CreateSucceeded(ClearAndRun(env, old(files), removeOk))
      ensures files == FilesAfterClear(env, old(files), removeOk, made)
    {
      var venv := VenvDir(env);
      if venv in files {
        if !removeOk {
          return false;
        }
        files := RemoveTree(files, venv);
      }
      ok := LocateAndCreate(made);
    }

    /** Find an interpreter on the current disk and create the environment with it. */
    method LocateAndCreate(made: set<string>) returns (ok: bool)
      modifies this`files
      ensures ok == CreateSucceeded(LocateAndRun(env, old(files)))
      ensures files == FilesAfterRun(env, old(files), made)
    {
      var found := FindSystemPython(env, files);
      if found.None? {
        return false;
      }
      var argv := CreationArgv(found.value, VenvDir(env));
      var c := RunPolled(env, argv, CREATE_TIMEOUT);
      if c.Exited? && c.code == 0 {
        files := files + made;
        return true;
      }
      return false;
    }

    /**
      `install_numpy_in_venv(terminal_manager=tm)`: pip must exist; the
      requirement is installed through the terminal's shell when a terminal
      is given, directly otherwise.
    */
    method InstallNumpy(tm: TerminalManager?) returns (ok: bool)
      requires tm != null ==> tm.env == env
      ensures ok == InstallResult(env, files, if tm == null then None else Some(tm.shell))
      ensures ok ==> Pip(env) in files
    {
      var pip := Pip(env);
      if pip !in files {
        return false;
      }
      var req := NumpyRequirement(Target(env));
      if tm != null {
        var success, _ := tm.ExecuteCommand(TerminalInstallCommand(pip, req), true, INSTALL_TIMEOUT_SECONDS);
        return success;
      }
      var c := RunPolled(env, [pip, "install", req], INSTALL_TIMEOUT_SECONDS * TICKS_PER_SECOND);
      return c.Exited? && c.code == 0;
    }

    /**
      `add_venv_to_sys_path`: false, with `sys.path` untouched, when the
      site-packages folder is missing; otherwise true, with the folder at
      the front of `sys.path` unless it was already on it.
    */
    method AddVenvToSysPath() returns (ok: bool)
      modifies this`sysPath
      ensures ok <==> SitePackages(env) in files
      ensures sysPath == if ok then PrependOnce(old(sysPath), SitePackages(env)) else old(sysPath)
      ensures ok ==> SitePackages(env) in sysPath
    {
      var sp := SitePackages(env);
      if sp !in files {
        return false;
      }
      if sp !in sysPath {
        sysPath := [sp] + sysPath;
      }
      return true;
    }
  }
}
