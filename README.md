# venv-creator: a Dafny model of the virtual-environment installer

`venv-creator/venv1.py` runs inside TouchDesigner, a host application that
embeds its own Python interpreter. The script prepares a project-local virtual
environment (`<project>\venv`) with NumPy in it and puts that environment's
`site-packages` on `sys.path`. The host's own interpreter cannot create
virtual environments, so the script must first find a *standalone*
interpreter of the same `major.minor` version. This project models the
decision logic of that script and proves what it guarantees.

The model covers:

- **Locating an interpreter** (`find_system_python`). Four strategies run in
  a fixed order, and the first hit wins:
  1. a `where`/`which` lookup on PATH, checked against the target version;
  2. an exact-version scan of the usual install roots;
  3. an any-version scan of the same roots;
  4. the `py -3.9` launcher.

  The PATH and any-version strategies reject a path containing any of four
  TouchDesigner markers, in any letter case. The exact-version strategy
  tests only "TouchDesigner" and "Derivative", case-sensitively
  (venv1.py:274), so a path containing "derivative" or "TOUCHDESIGNER"
  gets through that pass.
- **Validating an existing environment** (`get_touchdesigner_python_version`,
  `check_venv_python_version`, `check_venv_exists`). The leftmost `\d+\.\d+`
  is read from the venv interpreter's `--version` report and compared with
  the host's `major.minor`.
- **Creating the environment** (`create_venv`):
  - skip it when it is valid and no force flag is given;
  - otherwise delete the old folder, locate an interpreter, build the
    `-m venv` command line and classify the exit code.
- **Installing NumPy** (`install_numpy_in_venv`). pip must be present.
  `numpy<2.0` is pinned for a 3.9 host. The install runs either through the
  terminal's shell or directly.
- **`add_venv_to_sys_path`**: an idempotent prepend.
- **`TerminalManager.execute_command`**: the shell-dependent command line
  and the `(success, lines)` classification of the result.

The operating system is replaced by data:

- `Processes.Env` holds:
  - `os.name`;
  - the project folder (`os.getcwd()`);
  - `LOCALAPPDATA` and `PROGRAMFILES`;
  - the host's `sys.version_info`;
  - for every command line that can be launched, how long it runs and its
    exit code, stdout and stderr.
- The disk is the set of paths that exist.
- The outcome of `shutil.rmtree` and the files written by `python -m venv`
  are parameters.
- Time is counted in 10 ms polls ("ticks"), so a timeout of T seconds is
  `100 * T` ticks:
  - the blocking `subprocess.run(..., timeout=5)` probes give up after 500
    ticks;
  - the non-blocking `Popen`/`poll()` loops kill the child after `limit + 1`
    ticks.

Each pure decision is a function, and each loop of the script is a method
proved equal to that function. `sys.path` and the disk are fields of a
`Workspace` class that the methods update.

Files:

- `text.dfy` — `Wrappers` (Option) and `Text` (substring tests, ASCII case
  folding, `strip`, `split`, `splitlines`, `ntpath.join`);
- `versions.dfy` — the target version, the `\d+\.\d+` search, the NumPy
  requirement;
- `processes.dfy` — the machine and the two ways of running a child;
- `locator.dfy` — `find_system_python`;
- `terminal.dfy` — `TerminalManager.execute_command`;
- `venv.dfy` — validation, creation, NumPy installation, `sys.path`.

`create_venv` deletes the old folder *before* it looks for an interpreter,
whenever the environment is invalid or recreation is forced
(venv1.py:412-427). A failed search therefore leaves no environment behind.
`Venv.ClearFailuresRunNothing` and `Venv.CreateFailuresRunNothing` state
this: on `NoInterpreter` the disk is the cleared one.

## Model

| member | source | states |
|---|---|---|
| `Text.IsSpace` | venv-creator/venv1.py:217-219 | the characters `strip()` removes: space, `\t` to `\r` and `\x1c` to `\x1f` |
| `Text.Contains` | venv-creator/venv1.py:222 | Python's substring test `t in s`: `t` occurs at some position of `s` (also lines 236, 274, 283) |
| `Text.EndsWith` | venv-creator/venv1.py:269 | `str.endswith`: the last characters of `s` are the suffix |
| `Text.Lower` | venv-creator/venv1.py:221-222 | `str.lower()` keeps the length and maps each character to its lower-case form, leaving every other character alone |
| `Text.ContainsLower` | venv-creator/venv1.py:221-222 | a substring occurrence survives lower-casing both strings |
| `Text.Strip` | venv-creator/venv1.py:217-219 | `strip()` returns the slice between the leading and the trailing whitespace: everything before it and after it is whitespace, and it neither starts nor ends with whitespace |
| `Text.StripPreservesContains` | venv-creator/venv1.py:233-236 | for a non-empty word without whitespace, looking for it in the stripped or the raw string gives the same answer |
| `Text.Split` | venv-creator/venv1.py:218 | `split(sep)` yields at least one piece, and no piece contains the separator |
| `Text.SplitJoin` | venv-creator/venv1.py:218 | joining the pieces of `split(sep)` with `sep` gives back the input |
| `Text.SplitLines` | venv-creator/venv1.py:101-102 | `splitlines()` gives no lines exactly for empty text; no line contains a line break; joining the lines with `\n` gives back the text without its final `\n` |
| `Text.ReplaceChar` | venv-creator/venv1.py:563 | `replace('\\', '/')` keeps the length, replaces every occurrence and changes nothing else |
| `Text.RemoveChar` | venv-creator/venv1.py:247 | `replace(".", "")` leaves no occurrence, never lengthens the string and leaves a string without the character unchanged |
| `Text.RemoveCharConcat` | venv-creator/venv1.py:247 | removing a character from a concatenation removes it from each part, the rest keeping its order |
| `Text.JoinPath` | venv-creator/venv1.py:254-255 | `os.path.join(a, b)` ends in `b` and puts a backslash in between unless `a` is empty, a bare drive or ends in a separator |
| `Versions.Decimal` | venv-creator/venv1.py:189 | `str(n)` is a non-empty string of digits |
| `Versions.DecimalValue` | venv-creator/venv1.py:189 | the digits of `str(n)` denote `n` |
| `Versions.TargetVersion` | venv-creator/venv1.py:186-189 | `f"{major}.{minor}"` is a full match of `\d+\.\d+` |
| `Versions.TargetVersionInjective` | venv-creator/venv1.py:186-189 | different `(major, minor)` pairs give different target strings |
| `Versions.TargetVersionWithoutDot` | venv-creator/venv1.py:247 | `target.replace(".", "")` is the two numbers' digits joined: "3.10" gives "310" |
| `Versions.DigitsEnd` | venv-creator/venv1.py:359 | `\d+` is greedy: it returns the end of the maximal run of digits |
| `Versions.IsMajorMinor` | venv-creator/venv1.py:359 | the strings `\d+\.\d+` matches in full: digits, one dot, digits, with at least one digit on each side |
| `Versions.MatchesAt` | venv-creator/venv1.py:359 | `\d+\.\d+` can match at `i`: a run of digits, a dot right after the longest run, then a digit |
| `Versions.MatchEnd` | venv-creator/venv1.py:359 | the match starting at a matching position is a full `\d+\.\d+`, and the minor number is read greedily: no digit follows it |
| `Versions.FirstMatchFrom` | venv-creator/venv1.py:359 | the scan returns the first position from which `\d+\.\d+` matches, and none before it matches |
| `Versions.SearchMajorMinor` | venv-creator/venv1.py:358-361 | `re.search` finds nothing exactly when `MatchesAt` holds nowhere (and, by `SearchNoneIffNoFullMatch`, exactly when no substring is a full match); otherwise it returns a full `\d+\.\d+` substring of the input, starting at a matching position |
| `Versions.SearchFindsLeftmost` | venv-creator/venv1.py:358-361 | the search returns the leftmost match |
| `Versions.MatchesAtComplete` | venv-creator/venv1.py:359 | wherever a full `\d+\.\d+` substring starts, the per-position test holds, so the search misses no match |
| `Versions.SearchNoneIffNoFullMatch` | venv-creator/venv1.py:358-361 | `re.search` finds nothing exactly when no substring is a full `\d+\.\d+` |
| `Versions.SearchFindsLeftmostFullMatch` | venv-creator/venv1.py:358-361 | when a full `\d+\.\d+` starts at `i` and none starts earlier, the search returns the match at `i`, its minor number read greedily |
| `Versions.SearchReadsReport` | venv-creator/venv1.py:356-361 | digit-free text, then `a.b`, then text that does not continue the minor number reads back as `a.b` |
| `Versions.ReportPython395` | venv-creator/venv1.py:358-361 | `"Python 3.9.5"` gives `"3.9"` |
| `Versions.ReportPython3101` | venv-creator/venv1.py:358-361 | `"Python 3.10.1"` gives `"3.10"`, not `"3.1"` |
| `Versions.TargetVersionReadsBack` | venv-creator/venv1.py:186-189 | a target version string reads back as itself |
| `Versions.NumpyRequirement` | venv-creator/venv1.py:551-557 | the requirement is `numpy<2.0` or `numpy` |
| `Versions.NumpyPinnedOnlyFor39` | venv-creator/venv1.py:551-557 | numpy is pinned below 2.0 exactly when the host is Python 3.9 |
| `Processes.PROBE_TIMEOUT` | venv-creator/venv1.py:215 | the probes' `timeout=5` is 500 ticks |
| `Processes.ExitedOk` | venv-creator/venv1.py:233 | a child ran to completion and its `returncode` is 0 (also lines 217, 283, 328, 488, 608) |
| `Processes.Probe` | venv-creator/venv1.py:226-233 | `subprocess.run(timeout=5)` answers exactly when the command can start and ends within 500 ticks, with that command's exit code and stdout |
| `Processes.Spawn` | venv-creator/venv1.py:473-483 | a polled child is "not launched" exactly when it cannot start, killed after `limit + 1` ticks exactly when it runs longer than that, and otherwise gives its own exit code and output |
| `Processes.RunPolled` | venv-creator/venv1.py:473-483 | the polling loop gives "not launched" exactly for a command that cannot start; it kills after exactly `limit + 1` ticks a child that runs longer, and otherwise returns the child's exit code |
| `Locator.TwoMarkersSuffice` | venv-creator/venv1.py:207-222 | the four-marker, case-insensitive test comes down to "touchdesigner" or "derivative" in the lower-cased path |
| `Locator.LongMarkerHoldsDerivative` | venv-creator/venv1.py:207 | both Program Files markers lower-case to strings holding "derivative" |
| `Locator.PYTHON_NAMES` | venv-creator/venv1.py:203 | the executable names tried, in order: `python.exe`, `python3.exe`, `python` |
| `Locator.TD_MARKERS` | venv-creator/venv1.py:207 | the four TouchDesigner markers of the PATH and any-version passes |
| `Locator.LAUNCHER` | venv-creator/venv1.py:323-331 | the launcher command is `py -3.9`, whatever the target version |
| `Locator.Target` | venv-creator/venv1.py:197 | the target version is the host's `f"{major}.{minor}"` |
| `Locator.IsTouchDesignerPath` | venv-creator/venv1.py:220-222 | a path is the host's when its lower-cased form holds one of the four lower-cased markers |
| `Locator.ClearOfMarkersExact` | venv-creator/venv1.py:274 | the exact-version pass admits a path holding neither "TouchDesigner" nor "Derivative", case-sensitively |
| `Locator.CaseInsensitiveImpliesExact` | venv-creator/venv1.py:220-274 | a path the case-insensitive test admits also passes the exact pass's two-marker, case-sensitive test |
| `Locator.StripEach` | venv-creator/venv1.py:218-219 | each `where` line is stripped, and the lines keep their order |
| `Locator.LookupCommand` | venv-creator/venv1.py:212 | the lookup is `where <name>` on Windows and `which <name>` elsewhere |
| `Locator.WhereLines` | venv-creator/venv1.py:210-219 | lookup lines come only from a lookup that exits 0 in time, and each line is stripped at both ends |
| `Locator.PathAccepts` | venv-creator/venv1.py:220-236 | a PATH line is taken when it has no marker in any case and its `--version` exits 0 in time with the target in its stripped stdout |
| `Locator.FirstAccepted` | venv-creator/venv1.py:218-239 | the index of the first accepted PATH line; no earlier line is accepted |
| `Locator.PathPass` | venv-creator/venv1.py:209-243 | a PATH result has no marker in any case, and its `--version` exits 0 with the target in its stripped stdout |
| `Locator.PathPassNone` | venv-creator/venv1.py:209-243 | the PATH pass finds nothing exactly when no line of any name's lookup is accepted |
| `Locator.PathPassFirstMatch` | venv-creator/venv1.py:209-239 | the PATH result is the first accepted line of the first name whose lookup has one, and every earlier name's lookup has none |
| `Locator.SearchPath` | venv-creator/venv1.py:209-243 | the nested loop over names and lookup lines returns what `PathPass` specifies |
| `Locator.FirstAcceptedLine` | venv-creator/venv1.py:218-239 | the loop over one lookup's lines stops at the first accepted line |
| `Locator.FirstAcceptedIsFirst` | venv-creator/venv1.py:218-239 | an index with no accepted line before it and an accepted one (or the end) at it is the first accepted index |
| `Locator.VersionDirs` | venv-creator/venv1.py:246-252 | the version directories: the target without its dot, then Python39, Python310, Python311, Python312 |
| `Locator.VersionDirsStartWithTarget` | venv-creator/venv1.py:246-248 | the first directory is "Python" followed by both numbers' digits; on a 3.9 host the first two are both "Python39" |
| `Locator.InstallBases` | venv-creator/venv1.py:254-261 | the six install roots in order: LOCALAPPDATA\Programs\Python, PROGRAMFILES\Python, then C:\Python39 to C:\Python312 |
| `Locator.VersionPath` | venv-creator/venv1.py:269 | the version directory is joined with a backslash under a root ending in "Python"; any other root is used as it is |
| `Locator.UsableBase` | venv-creator/venv1.py:265 | an install root is scanned only when it is non-empty and exists; the any-version pass (line 293) uses the same test |
| `Locator.ExactAccepts` | venv-creator/venv1.py:273-287 | an exact candidate exists, has neither case-sensitive marker, and its `--version` exits 0 in time with the target in its raw stdout |
| `Locator.ExactInDir` | venv-creator/venv1.py:271-287 | a hit exists, has neither marker (case-sensitive) and reports the target in its raw stdout |
| `Locator.ExactInBase` | venv-creator/venv1.py:268-287 | a hit from one install root's version directories satisfies the exact-version test |
| `Locator.ExactPass` | venv-creator/venv1.py:263-287 | a hit from the exact-version pass satisfies the exact-version test |
| `Locator.ExactInDirNone` | venv-creator/venv1.py:271-287 | one directory yields nothing exactly when none of its names is accepted |
| `Locator.ExactInBaseNone` | venv-creator/venv1.py:268-287 | one root yields nothing exactly when none of its existing version directories holds an accepted name |
| `Locator.ExactPassNone` | venv-creator/venv1.py:263-287 | the exact-version pass finds nothing exactly when no usable root (non-empty and existing) holds an accepted candidate |
| `Locator.AnyAccepts` | venv-creator/venv1.py:295-316 | an any-version candidate exists and has no marker in any case |
| `Locator.AnyInBase` | venv-creator/venv1.py:295-316 | an any-version hit exists and has no marker in any case |
| `Locator.AnyPass` | venv-creator/venv1.py:291-316 | a hit from the any-version pass exists and has no marker |
| `Locator.AnyInBaseNone` | venv-creator/venv1.py:295-316 | one root yields nothing exactly when none of its names exists free of markers |
| `Locator.AnyPassNone` | venv-creator/venv1.py:291-316 | the any-version pass finds nothing exactly when no usable root holds an acceptable name |
| `Locator.SearchExact` | venv-creator/venv1.py:263-287 | the loop over the roots returns what `ExactPass` specifies |
| `Locator.SearchExactInBase` | venv-creator/venv1.py:268-287 | the loop over version directories returns what `ExactInBase` specifies, joining the directory only under a root that ends in "Python" |
| `Locator.SearchExactInDir` | venv-creator/venv1.py:271-287 | the loop over names returns what `ExactInDir` specifies |
| `Locator.SearchAny` | venv-creator/venv1.py:291-316 | the nested loop over roots and names returns what `AnyPass` specifies |
| `Locator.LauncherResponds` | venv-creator/venv1.py:320-328 | the launcher is used when `py -3.9 --version` exits 0 within the probe timeout |
| `Locator.Locate` | venv-creator/venv1.py:192-338 | the PATH, exact-version, any-version and launcher strategies in that order, the first hit ending the search |
| `Locator.FindSystemPython` | venv-creator/venv1.py:192-338 | the four strategies run in order, and the first hit is returned, as `Locate` specifies |
| `Locator.LocateNeverTouchDesigner` | venv-creator/venv1.py:207-301 | no returned path contains "TouchDesigner" or "Derivative"; a path found on PATH, or whenever the exact-version pass found nothing, contains none of the four markers in any case |
| `Locator.LocateSound` | venv-creator/venv1.py:209-338 | a returned path is accepted by one of the three passes; the launcher comes back as `["py", "-3.9"]` whatever the target is, and only when all three passes failed and it answered |
| `Locator.LocatePrefersPath` | venv-creator/venv1.py:209-243 | once any PATH line is accepted, the result comes from PATH |
| `Locator.LocateNotFound` | venv-creator/venv1.py:209-338 | `None` exactly when no PATH line, no exact candidate, no any-version candidate and no launcher answers |
| `Terminal.ShellArgv` | venv-creator/venv1.py:74-77 | `powershell.exe -Command c` exactly when the shell name lower-cases to "powershell"; otherwise `cmd.exe /C c` |
| `Terminal.ShellNameCaseInsensitive` | venv-creator/venv1.py:74 | "PowerShell" and "POWERSHELL" select PowerShell, and "cmd" selects cmd.exe |
| `Terminal.CommandOutcome` | venv-creator/venv1.py:79-124 | without waiting: success exactly when the command starts, with no lines. Waiting: success exactly on exit 0 in time; no lines when the command cannot start or is killed; stdout lines, plus stderr lines on a non-zero exit |
| `Terminal.LongerTimeoutKeepsOutcome` | venv-creator/venv1.py:90-97 | a command that finished in time reports the same under any longer timeout |
| `Terminal.SuccessHasNoErrorLines` | venv-creator/venv1.py:99-105 | a waited success means the command exited 0 in time and the lines are its stdout lines alone |
| `Terminal.TerminalManager.constructor` | venv-creator/venv1.py:15-26 | the manager keeps its shell, its visibility and the machine it runs on |
| `Terminal.TerminalManager.ExecuteCommand` | venv-creator/venv1.py:62-124 | `execute_command` returns `CommandOutcome` for the shell's command line, with the timeout in seconds as `100 *` ticks |
| `Venv.RemoveTree` | venv-creator/venv1.py:413-420 | `rmtree` removes exactly the folder and everything below it |
| `Venv.VenvDir` | venv-creator/venv1.py:343 | the environment folder is `<project>\venv` |
| `Venv.InScripts` | venv-creator/venv1.py:344 | the venv's executables and scripts live in `venv\Scripts` |
| `Venv.VenvPython` | venv-creator/venv1.py:344 | the venv interpreter is `venv\Scripts\python.exe` |
| `Venv.Activate` | venv-creator/venv1.py:372 | the activation script is `venv\Scripts\activate.bat` |
| `Venv.Pip` | venv-creator/venv1.py:540 | pip is `venv\Scripts\pip.exe` |
| `Venv.SitePackages` | venv-creator/venv1.py:633 | site-packages is `venv\Lib\site-packages` |
| `Venv.Under` | venv-creator/venv1.py:413-416 | a path is the folder itself or lies below it, after a path separator |
| `Venv.VenvVersion` | venv-creator/venv1.py:343-366 | the `(version, version_str)` pair `check_venv_python_version` returns |
| `Venv.VenvPythonVersion` | venv-creator/venv1.py:341-366 | `(None, None)` exactly when the venv interpreter is missing or does not exit 0 in time; otherwise the stripped report, with the leftmost `\d+\.\d+` of that report or `None` |
| `Venv.VenvValid` | venv-creator/venv1.py:369-393 | `check_venv_exists`: activate.bat exists and no version read from the venv interpreter differs from the host's |
| `Venv.ValidWithoutVersion` | venv-creator/venv1.py:356-393 | with activate.bat present, a venv counts as valid when its interpreter is missing, does not exit 0 in time, or reports no `\d+\.\d+` |
| `Venv.InvalidWithoutActivate` | venv-creator/venv1.py:372-374 | without `Scripts\activate.bat` the venv is never valid |
| `Venv.ValidIffReportedVersionMatches` | venv-creator/venv1.py:369-393 | for a report of the form "...a.b...", the venv is valid exactly when `(a, b)` is the host's `(major, minor)` |
| `Venv.CreationArgv` | venv-creator/venv1.py:432-437 | the command line ends in `-m venv <folder>`, after the launcher's tokens or after the single interpreter path |
| `Venv.LauncherCreationArgv` | venv-creator/venv1.py:433-434 | with the launcher the command line is `py -3.9 -m venv <folder>` |
| `Venv.Creation` | venv-creator/venv1.py:396-528 | `create_venv`'s four outcomes: kept valid, deletion failed, no interpreter, or `-m venv` run with its completion |
| `Venv.CREATE_TIMEOUT` | venv-creator/venv1.py:476 | `create_venv` waits 60 seconds, 6000 ticks, for `-m venv` |
| `Venv.CreatePlan` | venv-creator/venv1.py:396-528 | `create_venv`'s decision: keep a valid venv unless forced, otherwise continue as `ClearAndRun` |
| `Venv.ClearAndRun` | venv-creator/venv1.py:412-528 | fail when the old folder exists and cannot be deleted, otherwise continue as `LocateAndRun` on the cleared disk |
| `Venv.LocateAndRun` | venv-creator/venv1.py:422-528 | no interpreter means failure without a run; otherwise the located interpreter's `-m venv` command is polled for 60 seconds |
| `Venv.Cleared` | venv-creator/venv1.py:413-416 | the disk the search sees: the old folder removed when it existed, the disk unchanged otherwise |
| `Venv.CreateSucceeded` | venv-creator/venv1.py:408-410 | `create_venv` succeeds on a kept valid venv, or when `-m venv` exits 0 in time (lines 488-519) |
| `Venv.FilesAfterCreate` | venv-creator/venv1.py:396-528 | the disk after `create_venv`: unchanged for a kept venv, otherwise as `FilesAfterClear` |
| `Venv.FilesAfterClear` | venv-creator/venv1.py:412-528 | unchanged when the deletion fails, otherwise as `FilesAfterRun` on the cleared disk |
| `Venv.FilesAfterRun` | venv-creator/venv1.py:422-528 | the cleared disk plus what `-m venv` writes when creation succeeds, the cleared disk otherwise |
| `Venv.CreateKeepsValidVenv` | venv-creator/venv1.py:408-410 | without force, a valid venv means success, with nothing deleted and no search run |
| `Venv.CreateRemovesOldVenv` | venv-creator/venv1.py:412-420 | with force or an invalid venv, an existing folder is deleted before the search; unless deletion fails, nothing under it survives except what `-m venv` writes again |
| `Venv.CreateFailuresRunNothing` | venv-creator/venv1.py:412-427 | a failed deletion or a failed search means failure with no creation command run. The disk is unchanged after a failed deletion and cleared after a failed search |
| `Venv.ClearFailuresRunNothing` | venv-creator/venv1.py:412-427 | the same for the steps after the validity check |
| `Venv.CreateRunsLocatedInterpreter` | venv-creator/venv1.py:422-488 | creation runs only the command built from the interpreter found on the cleared disk, and succeeds exactly when it exits 0 within 60 seconds plus one poll |
| `Venv.CreatedFilesAdded` | venv-creator/venv1.py:471-519 | a successful creation leaves the cleared disk plus the files `-m venv` wrote |
| `Venv.Recreated` | venv-creator/venv1.py:432-437 | the machine after `-m venv`: the venv interpreter's `--version` now answers with the new interpreter's code and output; every other command and every other field are unchanged |
| `Venv.CreateThenKeep` | venv-creator/venv1.py:396-410 | after a successful creation whose new interpreter reports the host version, a second `create_venv` keeps the venv, whatever the deleted interpreter reported |
| `Venv.TerminalInstallCommand` | venv-creator/venv1.py:562-564 | the terminal command is `& ` followed by the quoted forward-slash pip path, then ` install `, and ends with the quoted requirement |
| `Venv.TerminalPipPathHasNoBackslash` | venv-creator/venv1.py:563 | the pip path passed to the shell has no backslash left |
| `Venv.INSTALL_TIMEOUT_SECONDS` | venv-creator/venv1.py:592 | `install_numpy_in_venv` waits 300 seconds for pip |
| `Venv.InstallResult` | venv-creator/venv1.py:531-626 | `install_numpy_in_venv`: false without pip; otherwise the requirement for the host version is installed through the terminal's shell or directly, and success is a zero exit in 300 seconds |
| `Venv.InstallNeedsPipAndExitZero` | venv-creator/venv1.py:542-622 | without pip the install fails; a direct install succeeds exactly when `pip install <req>` exits 0 within 300 seconds plus one poll; `<req>` is pinned for 3.9 only |
| `Venv.InstallThroughTerminal` | venv-creator/venv1.py:561-580 | through a terminal, the install succeeds exactly when pip exists and the shell's command line exits 0 within 300 seconds plus one poll |
| `Venv.PrependOnce` | venv-creator/venv1.py:635-642 | an absent entry is put at the front of the otherwise unchanged path; a present one leaves the path exactly as it was |
| `Venv.PrependOnceIdempotent` | venv-creator/venv1.py:635-642 | adding the same entry twice is the same as adding it once |
| `Venv.RepeatedPrependKeepsOneCopy` | venv-creator/venv1.py:635-642 | starting without the entry, any number of additions leave exactly one copy of it, at the front, ahead of the original path |
| `Venv.Workspace.CheckVenvExists` | venv-creator/venv1.py:369-393 | `check_venv_exists` returns `VenvValid` on the current disk, and true only when activate.bat exists |
| `Venv.Workspace.CreateVenv` | venv-creator/venv1.py:396-528 | `create_venv` returns success as `CreatePlan` decides and leaves the disk `FilesAfterCreate` describes |
| `Venv.Workspace.ClearAndCreate` | venv-creator/venv1.py:412-528 | the delete, locate and run steps, as `ClearAndRun` and `FilesAfterClear` describe |
| `Venv.Workspace.LocateAndCreate` | venv-creator/venv1.py:422-528 | locating and running `-m venv` on the cleared disk, adding what it writes only on success |
| `Venv.Workspace.InstallNumpy` | venv-creator/venv1.py:531-626 | `install_numpy_in_venv` returns `InstallResult`, and success implies pip exists |
| `Venv.Workspace.AddVenvToSysPath` | venv-creator/venv1.py:629-645 | true exactly when site-packages exists. On true, `sys.path` becomes the idempotent prepend of it; on false, `sys.path` is unchanged |

## Left out

- Real process spawning, pipes, `time.time()` and `time.sleep`. Children are
  entries of `Env.procs`, and elapsed time is counted in 10 ms polls. The
  model assumes each poll takes exactly one tick; the host's scheduling is
  not modelled.
- `Env` is fixed within one operation. A command answers the same way every
  time it is launched, and nothing outside the script changes the disk.
  During one `create_venv` the PATH lookups and version probes can
  therefore still answer for paths that `rmtree` has just removed.
- `Venv.CreateThenKeep`: the answer of the re-created venv interpreter is a
  parameter (`Recreated`), so only that probe changes between the two runs.
  Any other change the new environment makes to what commands answer is not
  modelled.
- The disk is a set of paths with no rule that a folder exists whenever a
  path below it does. A set holding `venv\Scripts\activate.bat` without
  `venv` is a state the real file system cannot reach: the model counts
  such a venv as valid, and `create_venv` does not delete it.
- Paths are compared as exact strings. Windows compares them without regard
  to letter case, but `Venv.RemoveTree` and `Venv.Under` do not remove a
  differently-cased spelling of a path below `venv`.
- A relative install root is not resolved against the project folder. One
  example is `Programs\Python` when LOCALAPPDATA is unset (venv1.py:255).
  Like the folder-closure case, these are states the set-of-strings disk
  allows but the real file system does not.
- The 2-second version-display polls in `create_venv` (venv1.py:443-462,
  491-512). Each starts a `--version` child whose answer is only printed.
  The child is not killed after 2 s, and neither it nor a failure to start
  it (swallowed by a bare `except`) affects the return value. Also left out:
  the progress messages, the pip-output version regex of
  `install_numpy_in_venv` and every `print`.
- `TerminalManager.launch_terminal`, `execute_command_in_terminal` (also
  the logging call at venv1.py:514-517), `get_pid`, `is_running` and
  `close`. These spawn or terminate Windows console windows, and their
  `process`/`pid` fields are never read by the modelled operations.
- `get_project_folder`, `get_python_version` and
  `get_python_executable_path`: the project folder and the version are
  fields of `Env`; the others are only printed.
- `test_numpy_import`, which is a dynamic import, and
  `setup_venv_with_numpy`, which chains `launch_terminal`, the three modelled
  operations and that import. The module-level script lines (venv1.py:700-717)
  are left out too.
- A failed `shutil.rmtree` is modelled as deleting nothing. A partial
  deletion is not modelled, nor are partial files left by a failed or killed
  `-m venv`.
- Only ASCII is modelled:
  - `\d` is `0`-`9`;
  - `lower()` folds `A`-`Z`;
  - `strip()` removes ASCII whitespace and `\x1c`-`\x1f`.
- `splitlines()` splits at `\n` and drops one trailing `\n`. The other
  line boundaries (`\r\n`, `\r`, `\x0b`, `\x0c`, `\x1c`-`\x1e`, `\x85`,
  U+2028, U+2029) are not modelled.
- `os.path.join` is modelled as Windows `ntpath.join` with relative second
  components. The POSIX joining used when `os.name` is not `nt` is not
  modelled, nor are absolute or UNC components.
- `Text.JoinPath`: its contract leaves the empty-first-component and
  bare-drive cases to the definition rather than stating them.
- `Locator.ExactPass`, `Locator.ExactInBase`, `Locator.ExactInDir`,
  `Locator.AnyPass`, `Locator.AnyInBase` and `Locator.PathPass` state only
  that a hit is acceptable. Their "nothing found" cases are stated by the
  `…None` lemmas, and their scan order by the methods that equal them.
