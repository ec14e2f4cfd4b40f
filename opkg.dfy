/**
 * `nilrt_snac.opkg.OpkgHelper`: the list of installed packages the tool keeps
 * in memory. It is read once from `opkg list-installed` and afterwards only
 * kept up to date by `install` and `remove`, also in a dry run where no opkg
 * command is started.
 */
module Opkg {
  import opened Wrappers
  import opened Text
  import opened SnacErrors
  import opened Host
  import Common

  const SnacConf := "/etc/opkg/snac.conf"

  // ---------------------------------------------------------------------------
  // Parsing `opkg list-installed`
  // ---------------------------------------------------------------------------

  /** `line.split(" - ")` has more than one piece: the package is the text before the first separator. */
  function PackageOf(line: string): (r: Option<string>)
    ensures r.None? <==> !Contains(line, " - ")
    ensures r.Some? ==> OccursAt(line, " - ", |r.value|) && StartsWith(line, r.value)
    ensures r.Some? ==> forall j :: 0 <= j < |r.value| ==> !OccursAt(line, " - ", j)
  {
    var i := Find(line, " - ");
    if i < 0 then None else Some(line[..i])
  }

  /** The packages named by `lines`, in order; lines without `" - "` are skipped. */
  function InstalledNames(lines: seq<string>): seq<string> {
    if |lines| == 0 then []
    else
      match PackageOf(lines[0])
      case None => InstalledNames(lines[1..])
      case Some(p) => [p] + InstalledNames(lines[1..])
  }

  lemma {:induction false} InstalledNamesAppend(a: seq<string>, b: seq<string>)
    ensures InstalledNames(a + b) == InstalledNames(a) + InstalledNames(b)
  {
    if |a| > 0 {
      assert (a + b)[1..] == a[1..] + b;
      InstalledNamesAppend(a[1..], b);
    } else {
      assert a + b == b;
    }
  }

  /** A name is listed exactly when some line names it. */
  lemma {:induction false} InstalledNamesMembers(lines: seq<string>, x: string)
    ensures x in InstalledNames(lines) <==> exists k :: 0 <= k < |lines| && PackageOf(lines[k]) == Some(x)
  {
    if |lines| > 0 {
      var tail := lines[1..];
      InstalledNamesMembers(tail, x);
      assert forall k :: 1 <= k < |lines| ==> lines[k] == tail[k - 1];
      if exists k :: 0 <= k < |tail| && PackageOf(tail[k]) == Some(x) {
        var k :| 0 <= k < |tail| && PackageOf(tail[k]) == Some(x);
        assert PackageOf(lines[k + 1]) == Some(x);
      }
    }
  }

  /** One line of `opkg list-installed`: `<name> - <version>`. */
  datatype Listed = Listed(name: string, version: string)

  /** The output of `opkg list-installed` for the given packages, one line each. */
  function Listing(pkgs: seq<Listed>): string {
    if |pkgs| == 0 then "" else pkgs[0].name + " - " + pkgs[0].version + "\n" + Listing(pkgs[1..])
  }

  function Names(pkgs: seq<Listed>): (r: seq<string>)
    ensures |r| == |pkgs| && forall k :: 0 <= k < |pkgs| ==> r[k] == pkgs[k].name
  {
    if |pkgs| == 0 then [] else [pkgs[0].name] + Names(pkgs[1..])
  }

  /** A package name has no space, so the first `" - "` of its line follows the name. */
  lemma PackageOfListedLine(p: Listed)
    requires ' ' !in p.name
    ensures PackageOf(p.name + " - " + p.version) == Some(p.name)
  {
    var line := p.name + " - " + p.version;
    assert OccursAt(line, " - ", |p.name|);
    forall j | 0 <= j < |p.name| ensures !OccursAt(line, " - ", j) {
      assert line[j] == p.name[j];
    }
    assert line[..|p.name|] == p.name;
  }

  /** Parsing the listing of packages whose names have no space or newline gives back their names. */
  lemma {:induction false} ParseListing(pkgs: seq<Listed>)
    requires forall k :: 0 <= k < |pkgs| ==> ' ' !in pkgs[k].name && '\n' !in pkgs[k].name && '\n' !in pkgs[k].version
    ensures InstalledNames(Lines(Listing(pkgs))) == Names(pkgs)
  {
    if |pkgs| == 0 {
      assert Lines("") == [""];
      assert !Contains("", " - ");
    } else {
      var p := pkgs[0];
      var line := p.name + " - " + p.version;
      assert '\n' !in line;
      assert Listing(pkgs) == line + ['\n'] + Listing(pkgs[1..]);
      SplitAroundSeparator(line, Listing(pkgs[1..]), '\n');
      ParseListing(pkgs[1..]);
      PackageOfListedLine(p);
      assert ([line] + Lines(Listing(pkgs[1..])))[1..] == Lines(Listing(pkgs[1..]));
    }
  }

  /** The loop of `OpkgHelper.__init__` that collects the package names. */
  method ParseInstalled(output: string) returns (names: seq<string>)
    ensures names == InstalledNames(Lines(output))
  {
    var lines := Lines(output);
    names := [];
    var i := 0;
    while i < |lines|
      invariant 0 <= i <= |lines|
      invariant names == InstalledNames(lines[..i])
    {
      InstalledNamesAppend(lines[..i], [lines[i]]);
      assert lines[..i + 1] == lines[..i] + [lines[i]];
      var pkg := PackageOf(lines[i]);
      if pkg.Some? {
        names := names + [pkg.value];
      }
      i := i + 1;
    }
    assert lines[..i] == lines;
  }

  // ---------------------------------------------------------------------------
  // Running opkg
  // ---------------------------------------------------------------------------

  /** The message of the `RuntimeError` `_run` raises. */
  function RunFailureMessage(command: seq<string>, code: int): string {
    "Command 'opkg " + Join(command, " ") + "' failed with return code " + IntToString(code)
  }

  /** What `_run(command)` returns or raises: opkg's output, or RuntimeError on a nonzero status. */
  function RunOutcome(shell: Shell, command: seq<string>): (r: Result<string, Failure>)
    ensures r.Ok? <==> "opkg" !in shell.missing && shell.exitCode(["opkg"] + command) == 0
    ensures r.Ok? ==> r.value == shell.output(["opkg"] + command)
    ensures "opkg" !in shell.missing && shell.exitCode(["opkg"] + command) != 0 ==>
      r == Err(RuntimeError(RunFailureMessage(command, shell.exitCode(["opkg"] + command))))
  {
    var cmd := ["opkg"] + command;
    match shell.Outcome(cmd, false)
    case Err(e) => Err(e)
    case Ok(code) =>
      if code != 0 then Err(RuntimeError(RunFailureMessage(command, code)))
      else Ok(shell.output(cmd))
  }

  /** `OpkgHelper._run(command)`. */
  method RunOpkg(shell: Shell, command: seq<string>) returns (r: Result<string, Failure>)
    modifies shell
    ensures shell.ran == old(shell.ran) + [["opkg"] + command]
    ensures r == RunOutcome(shell, command)
  {
    var status := shell.Run(["opkg"] + command, false);
    if status.Err? {
      return Err(status.error);
    }
    if status.value != 0 {
      return Err(RuntimeError(RunFailureMessage(command, status.value)));
    }
    return Ok(shell.output(["opkg"] + command));
  }

  // ---------------------------------------------------------------------------
  // The commands and their effect on the list
  // ---------------------------------------------------------------------------

  /** The `opkg install` command: `--force-reinstall` iff asked for, then the package. */
  function InstallCommand(pkg: string, forceReinstall: bool): (r: seq<string>)
    ensures |r| == (if forceReinstall then 4 else 3)
    ensures r[..2] == ["opkg", "install"] && r[|r| - 1] == pkg
    ensures forceReinstall ==> r[2] == "--force-reinstall"
  {
    ["opkg", "install"] + (if forceReinstall then ["--force-reinstall"] else []) + [pkg]
  }

  /** The position a remove flag takes on the command line. */
  function FlagRank(flag: string): int {
    if flag == "--autoremove" then 0
    else if flag == "--force-removal-of-essential-packages" then 1
    else if flag == "--force-depends" then 2
    else 3
  }

  /** The optional flags of `opkg remove`, each present iff requested, in their fixed order. */
  function RemoveFlags(autoremove: bool, forceEssential: bool, forceDepends: bool): (f: seq<string>)
    ensures ("--autoremove" in f <==> autoremove)
      && ("--force-removal-of-essential-packages" in f <==> forceEssential)
      && ("--force-depends" in f <==> forceDepends)
    ensures forall i, j :: 0 <= i < j < |f| ==> FlagRank(f[i]) < FlagRank(f[j]) < 3
  {
    var a := if autoremove then ["--autoremove"] else [];
    var e := if forceEssential then ["--force-removal-of-essential-packages"] else [];
    var d := if forceDepends then ["--force-depends"] else [];
    assert forall i :: 0 <= i < |a| ==> FlagRank(a[i]) == 0;
    assert forall i :: 0 <= i < |e| ==> FlagRank(e[i]) == 1;
    assert forall i :: 0 <= i < |d| ==> FlagRank(d[i]) == 2;
    a + e + d
  }

  /** The `opkg remove` command: the requested flags, then the package. */
  function RemoveCommand(pkg: string, autoremove: bool, forceEssential: bool, forceDepends: bool): (r: seq<string>)
    ensures |r| >= 3 && r[..2] == ["opkg", "remove"] && r[|r| - 1] == pkg
    ensures r[2..|r| - 1] == RemoveFlags(autoremove, forceEssential, forceDepends)
  {
    var r := ["opkg", "remove"] + RemoveFlags(autoremove, forceEssential, forceDepends) + [pkg];
    assert r[2..|r| - 1] == RemoveFlags(autoremove, forceEssential, forceDepends);
    r
  }

  /** The appends of `remove` that build its command line. */
  method RemoveCommandOf(pkg: string, autoremove: bool, forceEssential: bool, forceDepends: bool)
    returns (cmd: seq<string>)
    ensures cmd == RemoveCommand(pkg, autoremove, forceEssential, forceDepends)
  {
    cmd := ["opkg", "remove"];
    if autoremove {
      cmd := cmd + ["--autoremove"];
    }
    if forceEssential {
      cmd := cmd + ["--force-removal-of-essential-packages"];
    }
    if forceDepends {
      cmd := cmd + ["--force-depends"];
    }
    cmd := cmd + [pkg];
  }

  /** The list after installing `pkg`: appended when absent, unchanged when present. */
  function WithPackage(installed: seq<string>, pkg: string): (r: seq<string>)
    ensures pkg in r
    ensures forall p :: p in installed ==> p in r
    ensures forall p :: p in r ==> p in installed || p == pkg
    ensures pkg in installed ==> r == installed
    ensures pkg !in installed ==> |r| == |installed| + 1 && r[..|installed|] == installed
  {
    if pkg in installed then installed else installed + [pkg]
  }

  /** The position of the first occurrence of `x`. */
  function FirstIndex(s: seq<string>, x: string): (i: nat)
    requires x in s
    ensures i < |s| && s[i] == x && x !in s[..i]
  {
    if s[0] == x then 0 else
      assert x in s[1..];
      var i := FirstIndex(s[1..], x);
      assert s[..i + 1] == [s[0]] + s[1..][..i];
      i + 1
  }

  /** Python `list.remove(x)`: drops the first occurrence only. */
  function RemoveFirst(s: seq<string>, x: string): (r: seq<string>)
    requires x in s
    ensures |r| == |s| - 1
    ensures multiset(r) == multiset(s) - multiset{x}
    ensures exists i :: 0 <= i < |s| && s[i] == x && x !in s[..i] && r == s[..i] + s[i + 1..]
  {
    var i := FirstIndex(s, x);
    assert s == s[..i] + [x] + s[i + 1..];
    s[..i] + s[i + 1..]
  }

  /** Removing a package just installed restores the list it was installed into. */
  lemma RemoveUndoesInstall(installed: seq<string>, pkg: string)
    requires pkg !in installed
    ensures RemoveFirst(WithPackage(installed, pkg), pkg) == installed
  {
    var s := installed + [pkg];
    var i := FirstIndex(s, pkg);
    assert i == |installed|;
    assert s[..i] == installed;
  }

  /** Installing is idempotent on the list. */
  lemma InstallIdempotent(installed: seq<string>, pkg: string)
    ensures WithPackage(WithPackage(installed, pkg), pkg) == WithPackage(installed, pkg)
  {
  }

  /** The list after a successful `remove`: only a tracked removal drops the first occurrence. */
  function Removed(installed: seq<string>, pkg: string, ignoreInstalled: bool): (r: seq<string>)
    ensures ignoreInstalled || pkg !in installed ==> r == installed
    ensures !ignoreInstalled && pkg in installed ==> multiset(r) == multiset(installed) - multiset{pkg}
    ensures !ignoreInstalled && multiset(installed)[pkg] <= 1 ==> pkg !in r
  {
    if ignoreInstalled || pkg !in installed then installed
    else
      RemoveLeavesAbsentIfSingle(installed, pkg);
      RemoveFirst(installed, pkg)
  }

  /** Removing one package leaves every other name listed exactly as before. */
  lemma RemovedKeepsOthers(installed: seq<string>, pkg: string, ignoreInstalled: bool, other: string)
    requires other != pkg
    ensures other in Removed(installed, pkg, ignoreInstalled) <==> other in installed
  {
    var r := Removed(installed, pkg, ignoreInstalled);
    if !ignoreInstalled && pkg in installed {
      assert multiset(r)[other] == multiset(installed)[other];
    }
  }

  lemma RemoveLeavesAbsentIfSingle(installed: seq<string>, pkg: string)
    requires pkg in installed
    ensures multiset(installed)[pkg] <= 1 ==> pkg !in RemoveFirst(installed, pkg)
  {
    var r := RemoveFirst(installed, pkg);
    assert multiset(installed)[pkg] <= 1 ==> multiset(r)[pkg] == 0;
  }

  /** The commands `install` starts: none for a listed package or in a dry run. */
  function InstallRuns(installed: seq<string>, pkg: string, forceReinstall: bool, dryRun: Option<bool>): seq<seq<string>> {
    if pkg in installed || dryRun != Some(false) then [] else [InstallCommand(pkg, forceReinstall)]
  }

  /** What `install` returns or raises: only a started command, run with `check=True`, can fail. */
  function InstallResult(shell: Shell, installed: seq<string>, pkg: string, forceReinstall: bool,
                         dryRun: Option<bool>): Result<(), Failure> {
    if pkg in installed || dryRun != Some(false) then Ok(())
    else Completed(shell.Outcome(InstallCommand(pkg, forceReinstall), true))
  }

  /** The commands `remove` starts: none for an untracked absent package or in a dry run. */
  function RemoveRuns(installed: seq<string>, pkg: string, autoremove: bool, ignoreInstalled: bool,
                      forceEssential: bool, forceDepends: bool, dryRun: Option<bool>): seq<seq<string>> {
    if (!ignoreInstalled && pkg !in installed) || dryRun != Some(false) then []
    else [RemoveCommand(pkg, autoremove, forceEssential, forceDepends)]
  }

  /** What `remove` returns or raises: the command runs with `check = not ignore_installed`. */
  function RemoveResult(shell: Shell, installed: seq<string>, pkg: string, autoremove: bool, ignoreInstalled: bool,
                        forceEssential: bool, forceDepends: bool, dryRun: Option<bool>): Result<(), Failure> {
    if (!ignoreInstalled && pkg !in installed) || dryRun != Some(false) then Ok(())
    else Completed(shell.Outcome(RemoveCommand(pkg, autoremove, forceEssential, forceDepends), !ignoreInstalled))
  }

  /** What a run of helper calls did: the commands started, the outcome, and the list afterwards. */
  datatype Effect = Effect(ran: seq<seq<string>>, result: Result<(), Failure>, installed: seq<string>)

  /** `install` as an effect on the list it starts from. */
  function InstallEffect(shell: Shell, installed: seq<string>, pkg: string, forceReinstall: bool,
                         dryRun: Option<bool>): Effect {
    var r := InstallResult(shell, installed, pkg, forceReinstall, dryRun);
    Effect(InstallRuns(installed, pkg, forceReinstall, dryRun), r, if r.Ok? then WithPackage(installed, pkg) else installed)
  }

  /** `remove` as an effect on the list it starts from. */
  function RemoveEffect(shell: Shell, installed: seq<string>, pkg: string, autoremove: bool, ignoreInstalled: bool,
                        forceEssential: bool, forceDepends: bool, dryRun: Option<bool>): Effect {
    var r := RemoveResult(shell, installed, pkg, autoremove, ignoreInstalled, forceEssential, forceDepends, dryRun);
    Effect(RemoveRuns(installed, pkg, autoremove, ignoreInstalled, forceEssential, forceDepends, dryRun), r,
           if r.Ok? then Removed(installed, pkg, ignoreInstalled) else installed)
  }

  /** A command run through `subprocess.run`, leaving the list alone. */
  function CommandEffect(shell: Shell, installed: seq<string>, cmd: seq<string>, check: bool): Effect
    requires |cmd| >= 1
  {
    Effect([cmd], Completed(shell.Outcome(cmd, check)), installed)
  }

  /** Nothing run, nothing changed. */
  function Unchanged(installed: seq<string>): Effect {
    Effect([], Ok(()), installed)
  }

  /** `first`, then `next` (which starts from `first.installed`) unless `first` raised. */
  function AndThen(first: Effect, next: Effect): (e: Effect)
    ensures first.result.Err? ==> e == first
    ensures first.result.Ok? ==> e.ran == first.ran + next.ran && e.result == next.result && e.installed == next.installed
  {
    if first.result.Err? then first else Effect(first.ran + next.ran, next.result, next.installed)
  }

  /** Running `a` then `b`, then `c`, is running `a`, then `b` then `c`. */
  lemma AndThenAssociative(a: Effect, b: Effect, c: Effect)
    ensures AndThen(AndThen(a, b), c) == AndThen(a, AndThen(b, c))
  {
    if a.result.Ok? && b.result.Ok? {
      assert a.ran + b.ran + c.ran == a.ran + (b.ran + c.ran);
    }
  }

  /** The commands of `first` then `next`, appended to a history. */
  lemma AndThenRan(history: seq<seq<string>>, first: Effect, next: Effect)
    requires first.result.Ok?
    ensures history + AndThen(first, next).ran == history + first.ran + next.ran
  {
    assert history + (first.ran + next.ran) == history + first.ran + next.ran;
  }

  // ---------------------------------------------------------------------------
  // The helper object
  // ---------------------------------------------------------------------------

  class OpkgHelper {
    /** `_installed_packages`. */
    var installed: seq<string>
    /** `_dry_run`: absent until `set_dry_run` is called. */
    var dryRun: Option<bool>

    constructor Empty()
      ensures installed == [] && dryRun == None
    {
      installed := [];
      dryRun := None;
    }

    /**
     * `OpkgHelper()`: off NILRT the list stays empty and no command is run;
     * on NILRT it is parsed from `opkg list-installed`, whose failure escapes
     * the constructor.
     */
    static method Create(fs: FileSystem, shell: Shell) returns (r: Result<OpkgHelper, Failure>)
      modifies shell
      ensures Common.DistroOf(fs.files) != Some("nilrt") ==>
        r.Ok? && r.value.installed == [] && shell.ran == old(shell.ran)
      ensures Common.DistroOf(fs.files) == Some("nilrt") ==> shell.ran == old(shell.ran) + [["opkg", "list-installed"]]
      ensures Common.DistroOf(fs.files) == Some("nilrt") ==> (r.Ok? <==> RunOutcome(shell, ["list-installed"]).Ok?)
      ensures Common.DistroOf(fs.files) == Some("nilrt") && r.Err? ==> r.error == RunOutcome(shell, ["list-installed"]).error
      ensures Common.DistroOf(fs.files) == Some("nilrt") && r.Ok? ==>
        r.value.installed == InstalledNames(Lines(RunOutcome(shell, ["list-installed"]).value))
      ensures r.Ok? ==> fresh(r.value) && r.value.dryRun == None
    {
      var h := new OpkgHelper.Empty();
      var distro := Common.GetDistro(fs);
      if distro != Some("nilrt") {
        return Ok(h);
      }
      assert ["opkg"] + ["list-installed"] == ["opkg", "list-installed"];
      var packages := RunOpkg(shell, ["list-installed"]);
      if packages.Err? {
        return Err(packages.error);
      }
      var names := ParseInstalled(packages.value);
      h.installed := names;
      return Ok(h);
    }

    /** `set_dry_run(d)`. */
    method SetDryRun(d: bool)
      modifies this
      ensures dryRun == Some(d) && installed == old(installed)
    {
      dryRun := Some(d);
    }

    /** `is_installed(pkg)`: whether some entry of the list is the package's name. */
    predicate IsInstalled(pkg: string)
      reads this
      ensures IsInstalled(pkg) <==> exists k :: 0 <= k < |installed| && installed[k] == pkg
    {
      pkg in installed
    }

    /**
     * `install(pkg, force_reinstall)`: an absent package is installed with
     * `check=True` (skipped in a dry run) and then appended; a present one is
     * left alone.
     */
    method Install(pkg: string, forceReinstall: bool, shell: Shell) returns (r: Result<(), Failure>)
      requires pkg !in installed ==> dryRun.Some?
      modifies this, shell
      ensures dryRun == old(dryRun)
      ensures shell.ran == old(shell.ran) + InstallRuns(old(installed), pkg, forceReinstall, dryRun)
      ensures r == InstallResult(shell, old(installed), pkg, forceReinstall, dryRun)
      ensures installed == (if r.Ok? then WithPackage(old(installed), pkg) else old(installed))
    {
      if pkg in installed {
        return Ok(());
      }
      var cmd := ["opkg", "install"];
      if forceReinstall {
        cmd := cmd + ["--force-reinstall"];
      }
      cmd := cmd + [pkg];
      if !dryRun.value {
        var status := shell.Run(cmd, true);
        if status.Err? {
          return Err(status.error);
        }
      }
      installed := installed + [pkg];
      return Ok(());
    }

    /**
     * `remove(pkg, autoremove, ignore_installed, force_essential, force_depends)`:
     * nothing happens for an absent package unless `ignore_installed`; the
     * command runs with `check = not ignore_installed` (skipped in a dry run),
     * and the list drops the package only when `ignore_installed` is False.
     */
    method Remove(pkg: string, autoremove: bool, ignoreInstalled: bool, forceEssential: bool, forceDepends: bool,
                  shell: Shell) returns (r: Result<(), Failure>)
      requires ignoreInstalled || pkg in installed ==> dryRun.Some?
      modifies this, shell
      ensures dryRun == old(dryRun)
      ensures shell.ran == old(shell.ran)
        + RemoveRuns(old(installed), pkg, autoremove, ignoreInstalled, forceEssential, forceDepends, dryRun)
      ensures r == RemoveResult(shell, old(installed), pkg, autoremove, ignoreInstalled, forceEssential, forceDepends, dryRun)
      ensures installed == (if r.Ok? then Removed(old(installed), pkg, ignoreInstalled) else old(installed))
    {
      if !ignoreInstalled && pkg !in installed {
        return Ok(());
      }
      var cmd := RemoveCommandOf(pkg, autoremove, forceEssential, forceDepends);
      if !dryRun.value {
        var status := shell.Run(cmd, !ignoreInstalled);
        if status.Err? {
          return Err(status.error);
        }
      }
      if !ignoreInstalled {
        installed := RemoveFirst(installed, pkg);
      }
      return Ok(());
    }

    /** `update()`: `opkg update`, raising RuntimeError on a nonzero status. */
    method Update(shell: Shell) returns (r: Result<(), Failure>)
      modifies shell
      ensures shell.ran == old(shell.ran) + [["opkg", "update"]]
      ensures r.Ok? <==> RunOutcome(shell, ["update"]).Ok?
      ensures r.Err? ==> r.error == RunOutcome(shell, ["update"]).error
    {
      assert ["opkg"] + ["update"] == ["opkg", "update"];
      var out := RunOpkg(shell, ["update"]);
      if out.Err? {
        return Err(out.error);
      }
      return Ok(());
    }
  }
}
