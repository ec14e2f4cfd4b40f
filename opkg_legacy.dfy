/**
 * `nilrt_snac.OpkgHelper.OpkgHelper`: the older helper, which the entry point
 * and the faillock step use. It refreshes the feeds before reading the
 * installed list, and its `remove` has no autoremove flag.
 */
module OpkgLegacy {
  import opened Wrappers
  import opened Text
  import opened SnacErrors
  import opened Host
  import opened Opkg
  import Common

  class OpkgHelper {
    var installed: seq<string>
    var dryRun: Option<bool>

    constructor Empty()
      ensures installed == [] && dryRun == None
    {
      installed := [];
      dryRun := None;
    }

    /**
     * `OpkgHelper()`: off NILRT the list stays empty; on NILRT it runs
     * `opkg update` and then parses `opkg list-installed`. A failure of
     * either escapes the constructor, and a failed update skips the listing.
     */
    static method Create(fs: FileSystem, shell: Shell) returns (r: Result<OpkgHelper, Failure>)
      modifies shell
      ensures Common.DistroOf(fs.files) != Some("nilrt") ==>
        r.Ok? && r.value.installed == [] && shell.ran == old(shell.ran)
      ensures Common.DistroOf(fs.files) == Some("nilrt") && RunOutcome(shell, ["update"]).Err? ==>
        shell.ran == old(shell.ran) + [["opkg", "update"]] && r == Err(RunOutcome(shell, ["update"]).error)
      ensures Common.DistroOf(fs.files) == Some("nilrt") && RunOutcome(shell, ["update"]).Ok? ==>
        shell.ran == old(shell.ran) + [["opkg", "update"], ["opkg", "list-installed"]]
        && (r.Ok? <==> RunOutcome(shell, ["list-installed"]).Ok?)
      ensures Common.DistroOf(fs.files) == Some("nilrt") && RunOutcome(shell, ["update"]).Ok? && r.Err? ==>
        r.error == RunOutcome(shell, ["list-installed"]).error
      ensures Common.DistroOf(fs.files) == Some("nilrt") && r.Ok? ==>
        r.value.installed == InstalledNames(Lines(RunOutcome(shell, ["list-installed"]).value))
      ensures r.Ok? ==> fresh(r.value) && r.value.dryRun == None
    {
      var h := new OpkgHelper.Empty();
      var distro := Common.GetDistro(fs);
      if distro != Some("nilrt") {
        return Ok(h);
      }
      var updated := h.Update(shell);
      if updated.Err? {
        return Err(updated.error);
      }
      assert ["opkg"] + ["list-installed"] == ["opkg", "list-installed"];
      var packages := RunOpkg(shell, ["list-installed"]);
      if packages.Err? {
        return Err(packages.error);
      }
      var names := ParseInstalled(packages.value);
      h.installed := names;
      return Ok(h);
    }

    /** `set_dry_run(d)`. */
    method SetDryRun(d: bool)
      modifies this
      ensures dryRun == Some(d) && installed == old(installed)
    {
      dryRun := Some(d);
    }

    /** `is_installed(pkg)`: whether some entry of the list is the package's name. */
    predicate IsInstalled(pkg: string)
      reads this
      ensures IsInstalled(pkg) <==> exists k :: 0 <= k < |installed| && installed[k] == pkg
    {
      pkg in installed
    }

    /** `install(pkg, force_reinstall)`: as in the newer helper. */
    method Install(pkg: string, forceReinstall: bool, shell: Shell) returns (r: Result<(), Failure>)
      requires pkg !in installed ==> dryRun.Some?
      modifies this, shell
      ensures dryRun == old(dryRun)
      ensures shell.ran == old(shell.ran) + InstallRuns(old(installed), pkg, forceReinstall, dryRun)
      ensures r == InstallResult(shell, old(installed), pkg, forceReinstall, dryRun)
      ensures installed == (if r.Ok? then WithPackage(old(installed), pkg) else old(installed))
    {
      if pkg in installed {
        return Ok(());
      }
      var cmd := ["opkg", "install"];
      if forceReinstall {
        cmd := cmd + ["--force-reinstall"];
      }
      cmd := cmd + [pkg];
      if !dryRun.value {
        var status := shell.Run(cmd, true);
        if status.Err? {
          return Err(status.error);
        }
      }
      installed := installed + [pkg];
      return Ok(());
    }

    /**
     * `remove(pkg, ignore_installed, force_essential, force_depends)`: acts
     * iff `ignore_installed` or the package is listed; runs with
     * `check = not ignore_installed`; drops the package from the list only
     * when `ignore_installed` is False. There is no autoremove flag.
     */
    method Remove(pkg: string, ignoreInstalled: bool, forceEssential: bool, forceDepends: bool, shell: Shell)
      returns (r: Result<(), Failure>)
      requires ignoreInstalled || pkg in installed ==> dryRun.Some?
      modifies this, shell
      ensures dryRun == old(dryRun)
      ensures shell.ran == old(shell.ran)
        + RemoveRuns(old(installed), pkg, false, ignoreInstalled, forceEssential, forceDepends, dryRun)
      ensures r == RemoveResult(shell, old(installed), pkg, false, ignoreInstalled, forceEssential, forceDepends, dryRun)
      ensures installed == (if r.Ok? then Removed(old(installed), pkg, ignoreInstalled) else old(installed))
    {
      if ignoreInstalled || pkg in installed {
        var check := !ignoreInstalled;
        var cmd := RemoveCommandOf(pkg, false, forceEssential, forceDepends);
        if !dryRun.value {
          var status := shell.Run(cmd, check);
          if status.Err? {
            return Err(status.error);
          }
        }
        if !ignoreInstalled {
          installed := RemoveFirst(installed, pkg);
        }
      }
      return Ok(());
    }

    /** `update()`. */
    method Update(shell: Shell) returns (r: Result<(), Failure>)
      modifies shell
      ensures shell.ran == old(shell.ran) + [["opkg", "update"]]
      ensures r.Ok? <==> RunOutcome(shell, ["update"]).Ok?
      ensures r.Err? ==> r.error == RunOutcome(shell, ["update"]).error
    {
      assert ["opkg"] + ["update"] == ["opkg", "update"];
      var out := RunOpkg(shell, ["update"]);
      if out.Err? {
        return Err(out.error);
      }
      return Ok(());
    }
  }
}
