/**
  `find_system_python`: find a standalone interpreter for the virtual
  environment, never the host application's own. Four strategies run in a
  fixed order and the first hit ends the search:

    1. the `where`/`which` lookup of each executable name on PATH, keeping a
       candidate whose `--version` report contains the target "major.minor";
    2. an exact-version scan of the usual install roots;
    3. any interpreter at all directly under an install root;
    4. the `py -3.9` launcher.

  The reference functions below say what each strategy finds; the methods
  walk the same loops as the script and are proved to agree with them.
*/
module Locator {
  import opened Wrappers
  import opened Text
  import opened Versions
  import opened Processes

  /** A path to an interpreter, or a launcher command line (`['py', '-3.9']`). */
  datatype Interpreter = Exe(path: string) | Launcher(argv: seq<string>)

  const PYTHON_NAMES: seq<string> := ["python.exe", "python3.exe", "python"]

  /** Path fragments that betray the host application's own interpreter. */
  const TD_MARKERS: seq<string> :=
    ["TouchDesigner", "Derivative", "Program Files\\Derivative", "Program Files (x86)\\Derivative"]

  /** The launcher invocation; it asks for 3.9 whatever the target is. */
  const LAUNCHER: seq<string> := ["py", "-3.9"]

  function Target(env: Env): string {
    TargetVersion(env.major, env.minor)
  }

  /** The case-insensitive marker test of the PATH and any-version passes. */
  predicate IsTouchDesignerPath(p: string) {
    exists k :: 0 <= k < |TD_MARKERS| && Contains(Lower(p), Lower(TD_MARKERS[k]))
  }

  /** The marker test of the exact-version pass: two markers, case-sensitive. */
  predicate ClearOfMarkersExact(p: string) {
    !Contains(p, "TouchDesigner") && !Contains(p, "Derivative")
  }

  /**
    The two longer markers contain "Derivative", so the four-marker test
    comes down to two substrings of the lower-cased path.
  */
  lemma TwoMarkersSuffice(p: string)
    ensures IsTouchDesignerPath(p) <==> Contains(Lower(p), "touchdesigner") || Contains(Lower(p), "derivative")
  {
    assert Lower(TD_MARKERS[0]) == "touchdesigner";
    assert Lower(TD_MARKERS[1]) == "derivative";
    forall k | 2 <= k < |TD_MARKERS| && Contains(Lower(p), Lower(TD_MARKERS[k]))
      ensures Contains(Lower(p), "derivative")
    {
      LongMarkerHoldsDerivative(k);
      ContainsTransitive(Lower(p), Lower(TD_MARKERS[k]), "derivative");
    }
  }

  lemma LongMarkerHoldsDerivative(k: nat)
    requires 2 <= k < |TD_MARKERS|
    ensures Contains(Lower(TD_MARKERS[k]), "derivative")
  {
    if k == 2 {
      assert TD_MARKERS[k][14..24] == "Derivative";
      LowerHoldsDerivative("Program Files\\Derivative", 14);
    } else {
      assert TD_MARKERS[k][20..30] == "Derivative";
      LowerHoldsDerivative("Program Files (x86)\\Derivative", 20);
    }
  }

  /** A string with "Derivative" at `at` lower-cases to one holding "derivative". */
  lemma LowerHoldsDerivative(m: string, at: nat)
    requires OccursAt(m, "Derivative", at)
    ensures Contains(Lower(m), "derivative")
  {
    ContainsLower(m, "Derivative");
    assert Lower("Derivative") == "derivative";
  }

  /** A path the case-insensitive test lets through also passes the exact pass's test. */
  lemma CaseInsensitiveImpliesExact(p: string)
    requires !IsTouchDesignerPath(p)
    ensures ClearOfMarkersExact(p)
  {
    if Contains(p, TD_MARKERS[0]) {
      ContainsLower(p, TD_MARKERS[0]);
    }
    if Contains(p, TD_MARKERS[1]) {
      ContainsLower(p, TD_MARKERS[1]);
    }
  }

  // ----- strategy 1: PATH -----

  function LookupCommand(env: Env, name: string): seq<string> {
    [if env.windows then "where" else "which", name]
  }

  function StripEach(lines: seq<string>): (r: seq<string>)
    ensures |r| == |lines|
    ensures forall k :: 0 <= k < |lines| ==> r[k] == Strip(lines[k])
  {
    seq(|lines|, k requires 0 <= k < |lines| => Strip(lines[k]))
  }

  /**
    The candidates `where name` prints, one per line, stripped; none when
    the lookup fails, times out or prints nothing.
  */
  function WhereLines(env: Env, name: string): (lines: seq<string>)
    ensures lines != [] ==> ExitedOk(Probe(env, LookupCommand(env, name)))
    ensures forall k :: 0 <= k < |lines| ==> lines[k] == [] || (!IsSpace(lines[k][0]) && !IsSpace(lines[k][|lines[k]| - 1]))
  {
    var c := Probe(env, LookupCommand(env, name));
    if c.Exited? && c.code == 0 && Strip(c.out) != "" then StripEach(Split(Strip(c.out), '\n')) else []
  }

  /** A PATH candidate is taken when it carries no marker and reports the target version. */
  predicate PathAccepts(env: Env, target: string, p: string) {
    && !IsTouchDesignerPath(p)
    && var c := Probe(env, [p, "--version"]);
       c.Exited? && c.code == 0 && Contains(Strip(c.out), target)
  }

  predicate NoneAccepted(env: Env, target: string, lines: seq<string>) {
    forall k :: 0 <= k < |lines| ==> !PathAccepts(env, target, lines[k])
  }

  /** Index of the first accepted line, or `|lines|`. */
  function FirstAccepted(env: Env, target: string, lines: seq<string>): (j: nat)
    ensures j <= |lines|
    ensures j < |lines| ==> PathAccepts(env, target, lines[j])
    ensures forall k :: 0 <= k < j ==> !PathAccepts(env, target, lines[k])
  {
    if lines == [] then 0
    else if PathAccepts(env, target, lines[0]) then 0
    else 1 + FirstAccepted(env, target, lines[1..])
  }

  /** Strategy 1 over the executable names, in order. */
  function PathPass(env: Env, target: string, names: seq<string>): (r: Option<string>)
    ensures r.Some? ==> PathAccepts(env, target, r.value)
  {
    if names == [] then None
    else
      var lines := WhereLines(env, names[0]);
      var j := FirstAccepted(env, target, lines);
      if j < |lines| then Some(lines[j]) else PathPass(env, target, names[1..])
  }

  /** The PATH pass finds nothing exactly when no line of any name's lookup is accepted. */
  lemma {:induction false} PathPassNone(env: Env, target: string, names: seq<string>)
    ensures PathPass(env, target, names).None? <==>
      forall i :: 0 <= i < |names| ==> NoneAccepted(env, target, WhereLines(env, names[i]))
    decreases |names|
  {
    if names != [] {
      var lines := WhereLines(env, names[0]);
      if FirstAccepted(env, target, lines) < |lines| {
        assert !NoneAccepted(env, target, lines);
      } else {
        assert NoneAccepted(env, target, lines);
        PathPassNone(env, target, names[1..]);
        assert forall i :: 1 <= i < |names| ==> names[i] == names[1..][i - 1];
      }
    }
  }

  /**
    The lookup of `names[i]` yields an accepted line while no earlier
    name's lookup yields any, and `p` is that name's first accepted line.
  */
  predicate FirstPathHit(env: Env, target: string, names: seq<string>, i: nat, p: string) {
    && i < |names|
    && (forall h :: 0 <= h < i ==> NoneAccepted(env, target, WhereLines(env, names[h])))
    && var lines := WhereLines(env, names[i]);
       var j := FirstAccepted(env, target, lines);
       j < |lines| && p == lines[j]
  }

  /** Index of the first name whose lookup yields an accepted line, or `|names|`. */
  function PathHitIndex(env: Env, target: string, names: seq<string>): nat {
    if names == [] then 0
    else
      var lines := WhereLines(env, names[0]);
      if FirstAccepted(env, target, lines) < |lines| then 0 else 1 + PathHitIndex(env, target, names[1..])
  }

  /**
    First match wins: a PATH result is the first accepted line of the first
    name whose lookup yields an accepted line.
  */
  lemma {:induction false} PathPassFirstMatch(env: Env, target: string, names: seq<string>)
    requires PathPass(env, target, names).Some?
    ensures FirstPathHit(env, target, names, PathHitIndex(env, target, names), PathPass(env, target, names).value)
  {
    var lines := WhereLines(env, names[0]);
    var p := PathPass(env, target, names).value;
    if FirstAccepted(env, target, lines) >= |lines| {
      assert NoneAccepted(env, target, lines);
      var tail := names[1..];
      assert PathPass(env, target, tail) == PathPass(env, target, names);
      PathPassFirstMatch(env, target, tail);
      var i' := PathHitIndex(env, target, tail);
      forall h | 0 <= h < i' + 1 ensures NoneAccepted(env, target, WhereLines(env, names[h])) {
        if h > 0 {
          assert names[h] == tail[h - 1];
        }
      }
      assert names[i' + 1] == tail[i'];
    }
  }

  /** The PATH pass as the script runs it: names in order, then lookup lines in order. */
  method SearchPath(env: Env, target: string, names: seq<string>) returns (r: Option<string>)
    ensures r == PathPass(env, target, names)
  {
    var i := 0;
    while i < |names|
      invariant 0 <= i <= |names|
      invariant PathPass(env, target, names[i..]) == PathPass(env, target, names)
    {
      var lines := WhereLines(env, names[i]);
      var j := FirstAcceptedLine(env, target, lines);
      if j < |lines| {
        return Some(lines[j]);
      }
      assert names[i..][1..] == names[i + 1..];
      i := i + 1;
    }
    return None;
  }

  /** The lines of one lookup, in order: the first without a marker whose report holds the target. */
  method FirstAcceptedLine(env: Env, target: string, lines: seq<string>) returns (j: nat)
    ensures j == FirstAccepted(env, target, lines)
  {
    j := 0;
    while j < |lines|
      invariant 0 <= j <= |lines|
      invariant forall k :: 0 <= k < j ==> !PathAccepts(env, target, lines[k])
    {
      var p := lines[j];
      if !IsTouchDesignerPath(p) {
        var c := Probe(env, [p, "--version"]);
        if c.Exited? && c.code == 0 && Contains(Strip(c.out), target) {
          FirstAcceptedIsFirst(env, target, lines, j);
          return j;
        }
      }
      j := j + 1;
    }
    FirstAcceptedIsFirst(env, target, lines, j);
  }

  /** An index before which no line is accepted, and at which one is (or the end), is the first accepted one. */
  lemma {:induction false} FirstAcceptedIsFirst(env: Env, target: string, lines: seq<string>, j: nat)
    requires j <= |lines|
    requires forall k :: 0 <= k < j ==> !PathAccepts(env, target, lines[k])
    requires j < |lines| ==> PathAccepts(env, target, lines[j])
    ensures FirstAccepted(env, target, lines) == j
    decreases j
  {
    if j > 0 {
      FirstAcceptedIsFirst(env, target, lines[1..], j - 1);
    }
  }

  // ----- strategies 2 and 3: the install roots -----

  /** `Python{major}{minor}` first, then the fixed fallbacks (so "Python39" may come twice). */
  function VersionDirs(target: string): seq<string> {
    ["Python" + RemoveChar(target, '.'), "Python39", "Python310", "Python311", "Python312"]
  }

  /** The first version directory tried is the target without its dot: "Python310" for 3.10. */
  lemma VersionDirsStartWithTarget(major: nat, minor: nat)
    ensures VersionDirs(TargetVersion(major, minor))[0] == "Python" + Decimal(major) + Decimal(minor)
    ensures VersionDirs(TargetVersion(3, 9))[0] == VersionDirs(TargetVersion(3, 9))[1] == "Python39"
  {
    TargetVersionWithoutDot(major, minor);
    TargetVersionWithoutDot(3, 9);
    assert Decimal(3) == "3" && Decimal(9) == "9";
  }

  function InstallBases(env: Env): seq<string> {
    [ JoinPath(JoinPath(env.localAppData, "Programs"), "Python"),
      JoinPath(env.programFiles, "Python"),
      "C:\\Python39", "C:\\Python310", "C:\\Python311", "C:\\Python312" ]
  }

  /** A version directory is joined only under a root that ends in "Python". */
  function VersionPath(base: string, vdir: string): (p: string)
    ensures EndsWith(base, "Python") ==> p == base + "\\" + vdir
    ensures !EndsWith(base, "Python") ==> p == base
  {
    if EndsWith(base, "Python") then JoinPath(base, vdir) else base
  }

  predicate UsableBase(files: set<string>, base: string) {
    base != "" && base in files
  }

  /** An exact-version candidate: present, free of the two markers (case-sensitive), reporting the target. */
  predicate ExactAccepts(env: Env, target: string, files: set<string>, p: string) {
    && p in files
    && ClearOfMarkersExact(p)
    && var c := Probe(env, [p, "--version"]);
       c.Exited? && c.code == 0 && Contains(c.out, target)
  }

  function ExactInDir(env: Env, target: string, files: set<string>, dir: string, names: seq<string>): (r: Option<string>)
    ensures r.Some? ==> ExactAccepts(env, target, files, r.value)
  {
    if names == [] then None
    else
      var p := JoinPath(dir, names[0]);
      if ExactAccepts(env, target, files, p) then Some(p)
      else ExactInDir(env, target, files, dir, names[1..])
  }

  function ExactInBase(env: Env, target: string, files: set<string>, base: string, vdirs: seq<string>): (r: Option<string>)
    ensures r.Some? ==> ExactAccepts(env, target, files, r.value)
  {
    if vdirs == [] then None
    else
      var vp := VersionPath(base, vdirs[0]);
      var hit := if vp in files then ExactInDir(env, target, files, vp, PYTHON_NAMES) else None;
      if hit.Some? then hit else ExactInBase(env, target, files, base, vdirs[1..])
  }

  /** Strategy 2 over the install roots, in order. */
  function ExactPass(env: Env, target: string, files: set<string>, bases: seq<string>): (r: Option<string>)
    ensures r.Some? ==> ExactAccepts(env, target, files, r.value)
  {
    if bases == [] then None
    else
      var hit := if UsableBase(files, bases[0]) then ExactInBase(env, target, files, bases[0], VersionDirs(target)) else None;
      if hit.Some? then hit else ExactPass(env, target, files, bases[1..])
  }

  /** An any-version candidate: present and free of the four markers; its version is not checked. */
  predicate AnyAccepts(files: set<string>, p: string) {
    p in files && !IsTouchDesignerPath(p)
  }

  function AnyInBase(files: set<string>, base: string, names: seq<string>): (r: Option<string>)
    ensures r.Some? ==> AnyAccepts(files, r.value)
  {
    if names == [] then None
    else
      var p := JoinPath(base, names[0]);
      if AnyAccepts(files, p) then Some(p) else AnyInBase(files, base, names[1..])
  }

  /** Strategy 3 over the install roots, in order. */
  function AnyPass(files: set<string>, bases: seq<string>): (r: Option<string>)
    ensures r.Some? ==> AnyAccepts(files, r.value)
  {
    if bases == [] then None
    else
      var hit := if UsableBase(files, bases[0]) then AnyInBase(files, bases[0], PYTHON_NAMES) else None;
      if hit.Some? then hit else AnyPass(files, bases[1..])
  }

  /** No name in `dir` gives an exact-version candidate. */
  predicate NoExactIn(env: Env, target: string, files: set<string>, dir: string) {
    forall n :: 0 <= n < |PYTHON_NAMES| ==> !ExactAccepts(env, target, files, JoinPath(dir, PYTHON_NAMES[n]))
  }

  /** No existing version directory of `base` holds an exact-version candidate. */
  predicate NoExactInBase(env: Env, target: string, files: set<string>, base: string) {
    forall d :: 0 <= d < |VersionDirs(target)| && VersionPath(base, VersionDirs(target)[d]) in files ==>
      NoExactIn(env, target, files, VersionPath(base, VersionDirs(target)[d]))
  }

  lemma {:induction false} ExactInDirNone(env: Env, target: string, files: set<string>, dir: string, names: seq<string>)
    ensures ExactInDir(env, target, files, dir, names).None? <==>
      forall n :: 0 <= n < |names| ==> !ExactAccepts(env, target, files, JoinPath(dir, names[n]))
    decreases |names|
  {
    if names != [] {
      ExactInDirNone(env, target, files, dir, names[1..]);
      assert forall n :: 1 <= n < |names| ==> names[n] == names[1..][n - 1];
    }
  }

  lemma {:induction false} ExactInBaseNone(env: Env, target: string, files: set<string>, base: string, vdirs: seq<string>)
    ensures ExactInBase(env, target, files, base, vdirs).None? <==>
      forall d :: 0 <= d < |vdirs| && VersionPath(base, vdirs[d]) in files ==> NoExactIn(env, target, files, VersionPath(base, vdirs[d]))
    decreases |vdirs|
  {
    if vdirs != [] {
      ExactInDirNone(env, target, files, VersionPath(base, vdirs[0]), PYTHON_NAMES);
      ExactInBaseNone(env, target, files, base, vdirs[1..]);
      assert forall d :: 1 <= d < |vdirs| ==> vdirs[d] == vdirs[1..][d - 1];
    }
  }

  /**
    The exact-version pass finds nothing exactly when no usable install
    root has an existing version directory holding an accepted name.
  */
  lemma {:induction false} ExactPassNone(env: Env, target: string, files: set<string>, bases: seq<string>)
    ensures ExactPass(env, target, files, bases).None? <==>
      forall b :: 0 <= b < |bases| && UsableBase(files, bases[b]) ==> NoExactInBase(env, target, files, bases[b])
    decreases |bases|
  {
    if bases != [] {
      ExactInBaseNone(env, target, files, bases[0], VersionDirs(target));
      ExactPassNone(env, target, files, bases[1..]);
      assert forall b :: 1 <= b < |bases| ==> bases[b] == bases[1..][b - 1];
    }
  }

  /** No name directly under `base` gives an any-version candidate. */
  predicate NoAnyIn(files: set<string>, base: string) {
    forall n :: 0 <= n < |PYTHON_NAMES| ==> !AnyAccepts(files, JoinPath(base, PYTHON_NAMES[n]))
  }

  lemma {:induction false} AnyInBaseNone(files: set<string>, base: string, names: seq<string>)
    ensures AnyInBase(files, base, names).None? <==>
      forall n :: 0 <= n < |names| ==> !AnyAccepts(files, JoinPath(base, names[n]))
    decreases |names|
  {
    if names != [] {
      AnyInBaseNone(files, base, names[1..]);
      assert forall n :: 1 <= n < |names| ==> names[n] == names[1..][n - 1];
    }
  }

  /** The any-version pass finds nothing exactly when no usable install root holds an accepted name. */
  lemma {:induction false} AnyPassNone(files: set<string>, bases: seq<string>)
    ensures AnyPass(files, bases).None? <==>
      forall b :: 0 <= b < |bases| && UsableBase(files, bases[b]) ==> NoAnyIn(files, bases[b])
    decreases |bases|
  {
    if bases != [] {
      AnyInBaseNone(files, bases[0], PYTHON_NAMES);
      AnyPassNone(files, bases[1..]);
      assert forall b :: 1 <= b < |bases| ==> bases[b] == bases[1..][b - 1];
    }
  }

  /** The exact-version pass as the script runs it: roots, then version directories, then names. */
  method SearchExact(env: Env, target: string, files: set<string>, bases: seq<string>) returns (r: Option<string>)
    ensures r == ExactPass(env, target, files, bases)
  {
    var b := 0;
    while b < |bases|
      invariant 0 <= b <= |bases|
      invariant ExactPass(env, target, files, bases[b..]) == ExactPass(env, target, files, bases)
    {
      var base := bases[b];
      if base != "" && base in files {
        var hit := SearchExactInBase(env, target, files, base);
        if hit.Some? {
          return hit;
        }
      }
      assert bases[b..][1..] == bases[b + 1..];
      b := b + 1;
    }
    return None;
  }

  /** The version directories of one install root, in order. */
  method SearchExactInBase(env: Env, target: string, files: set<string>, base: string) returns (r: Option<string>)
    ensures r == ExactInBase(env, target, files, base, VersionDirs(target))
  {
    var vdirs := VersionDirs(target);
    var d := 0;
    while d < |vdirs|
      invariant 0 <= d <= |vdirs|
      invariant ExactInBase(env, target, files, base, vdirs[d..]) == ExactInBase(env, target, files, base, vdirs)
    {
      var vp := VersionPath(base, vdirs[d]);
      if vp in files {
        var hit := SearchExactInDir(env, target, files, vp);
        if hit.Some? {
          return hit;
        }
      }
      assert vdirs[d..][1..] == vdirs[d + 1..];
      d := d + 1;
    }
    return None;
  }

  /** The executable names in one version directory, in order. */
  method SearchExactInDir(env: Env, target: string, files: set<string>, dir: string) returns (r: Option<string>)
    ensures r == ExactInDir(env, target, files, dir, PYTHON_NAMES)
  {
    var n := 0;
    while n < |PYTHON_NAMES|
      invariant 0 <= n <= |PYTHON_NAMES|
      invariant ExactInDir(env, target, files, dir, PYTHON_NAMES[n..]) == ExactInDir(env, target, files, dir, PYTHON_NAMES)
    {
      var p := JoinPath(dir, PYTHON_NAMES[n]);
      if p in files && !Contains(p, "TouchDesigner") && !Contains(p, "Derivative") {
        var c := Probe(env, [p, "--version"]);
        if c.Exited? && c.code == 0 && Contains(c.out, target) {
          return Some(p);
        }
      }
      assert PYTHON_NAMES[n..][1..] == PYTHON_NAMES[n + 1..];
      n := n + 1;
    }
    return None;
  }

  /** The any-version pass as the script runs it: roots, then names. */
  method SearchAny(files: set<string>, bases: seq<string>) returns (r: Option<string>)
    ensures r == AnyPass(files, bases)
  {
    var b := 0;
    while b < |bases|
      invariant 0 <= b <= |bases|
      invariant AnyPass(files, bases[b..]) == AnyPass(files, bases)
    {
      var base := bases[b];
      if base != "" && base in files {
        var n := 0;
        while n < |PYTHON_NAMES|
          invariant 0 <= n <= |PYTHON_NAMES|
          invariant AnyInBase(files, base, PYTHON_NAMES[n..]) == AnyInBase(files, base, PYTHON_NAMES)
        {
          var p := JoinPath(base, PYTHON_NAMES[n]);
          if p in files && !IsTouchDesignerPath(p) {
            // the version is queried only to be displayed
            assert AnyPass(files, bases[b..]) == Some(p);
            return Some(p);
          }
          assert PYTHON_NAMES[n..][1..] == PYTHON_NAMES[n + 1..];
          n := n + 1;
        }
      }
      assert bases[b..][1..] == bases[b + 1..];
      b := b + 1;
    }
    return None;
  }

  // ----- the whole search -----

  predicate LauncherResponds(env: Env) {
    ExitedOk(Probe(env, LAUNCHER + ["--version"]))
  }

  /** What `find_system_python` returns, strategy by strategy. */
  function Locate(env: Env, files: set<string>): Option<Interpreter> {
    var target := Target(env);
    var bases := InstallBases(env);
    match PathPass(env, target, PYTHON_NAMES)
    case Some(p) => Some(Exe(p))
    case None =>
      match ExactPass(env, target, files, bases)
      case Some(p) => Some(Exe(p))
      case None =>
        match AnyPass(files, bases)
        case Some(p) => Some(Exe(p))
        case None => if LauncherResponds(env) then Some(Launcher(LAUNCHER)) else None
  }

  /** `find_system_python`: the four strategies in order, each ending the search on its first hit. */
  method FindSystemPython(env: Env, files: set<string>) returns (r: Option<Interpreter>)
    ensures r == Locate(env, files)
  {
    var target := Target(env);
    var onPath := SearchPath(env, target, PYTHON_NAMES);
    if onPath.Some? {
      return Some(Exe(onPath.value));
    }
    var bases := InstallBases(env);
    var exact := SearchExact(env, target, files, bases);
    if exact.Some? {
      return Some(Exe(exact.value));
    }
    var any := SearchAny(files, bases);
    if any.Some? {
      return Some(Exe(any.value));
    }
    var c := Probe(env, LAUNCHER + ["--version"]);
    if c.Exited? && c.code == 0 {
      return Some(Launcher(LAUNCHER));
    }
    return None;
  }

  /**
    No strategy returns the host's interpreter: every path found is free of
    "TouchDesigner" and "Derivative" (the exact-version pass tests only
    these two, case-sensitively), and one found on PATH or by the
    any-version pass is free of all four markers in any letter case.
  */
  lemma LocateNeverTouchDesigner(env: Env, files: set<string>)
    requires Locate(env, files).Some? && Locate(env, files).value.Exe?
    ensures ClearOfMarkersExact(Locate(env, files).value.path)
    ensures PathPass(env, Target(env), PYTHON_NAMES).Some? || ExactPass(env, Target(env), files, InstallBases(env)).None? ==>
      !IsTouchDesignerPath(Locate(env, files).value.path)
  {
    var p := Locate(env, files).value.path;
    if !ExactAccepts(env, Target(env), files, p) || PathPass(env, Target(env), PYTHON_NAMES).Some? {
      CaseInsensitiveImpliesExact(p);
    }
  }

  /**
    What each kind of result means: a path is accepted by one of the three
    passes, strategy by strategy, and the launcher comes back as the
    two-token command `py -3.9` whatever the target version is.
  */
  lemma LocateSound(env: Env, files: set<string>)
    requires Locate(env, files).Some?
    ensures Locate(env, files).value.Exe? ==>
      var p := Locate(env, files).value.path;
      PathAccepts(env, Target(env), p)
      || ExactAccepts(env, Target(env), files, p)
      || AnyAccepts(files, p)
    ensures Locate(env, files).value.Launcher? ==>
      Locate(env, files).value.argv == ["py", "-3.9"] && LauncherResponds(env)
      && PathPass(env, Target(env), PYTHON_NAMES).None?
      && ExactPass(env, Target(env), files, InstallBases(env)).None?
      && AnyPass(files, InstallBases(env)).None?
  {
  }

  /**
    PATH comes first: when any looked-up line is accepted the result is a
    PATH candidate, and the install roots and the launcher are not consulted.
  */
  lemma LocatePrefersPath(env: Env, files: set<string>, i: nat, k: nat)
    requires i < |PYTHON_NAMES| && k < |WhereLines(env, PYTHON_NAMES[i])|
    requires PathAccepts(env, Target(env), WhereLines(env, PYTHON_NAMES[i])[k])
    ensures Locate(env, files).Some? && Locate(env, files).value.Exe?
    ensures PathAccepts(env, Target(env), Locate(env, files).value.path)
  {
    assert !NoneAccepted(env, Target(env), WhereLines(env, PYTHON_NAMES[i]));
    PathPassNone(env, Target(env), PYTHON_NAMES);
  }

  /** Nothing is found exactly when every strategy comes back empty. */
  lemma LocateNotFound(env: Env, files: set<string>)
    ensures Locate(env, files).None? <==>
      && (forall i :: 0 <= i < |PYTHON_NAMES| ==> NoneAccepted(env, Target(env), WhereLines(env, PYTHON_NAMES[i])))
      && (forall b :: 0 <= b < |InstallBases(env)| && UsableBase(files, InstallBases(env)[b]) ==>
            NoExactInBase(env, Target(env), files, InstallBases(env)[b]) && NoAnyIn(files, InstallBases(env)[b]))
      && !LauncherResponds(env)
  {
    PathPassNone(env, Target(env), PYTHON_NAMES);
    ExactPassNone(env, Target(env), files, InstallBases(env));
    AnyPassNone(files, InstallBases(env));
  }
}
