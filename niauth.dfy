/**
 * `_NIAuthConfig`: removes NI's authentication packages, installs the
 * package that conflicts with them, and clears root's password.
 */
module NiAuthConfig {
  import opened Wrappers
  import opened SnacErrors
  import opened Host
  import opened Opkg

  const NiAuth := "ni-auth"
  const AcctSudo := "niacctbase-sudo"
  const Conflicts := "nilrt-snac-conflicts"
  const ClearRootPassword := ["passwd", "-d", "root"]

  const FoundNiAuth := "FOUND: ni-auth installed"
  const FoundAcctSudo := "FOUND: niacctbase-sudo installed"
  const MissingConflicts := "MISSING: nilrt-snac-conflicts not installed"

  /** The conflicts package file shipped in the data directory. */
  function ConflictsPackageFile(dataDir: string): string {
    dataDir + "/" + Conflicts + ".ipk"
  }

  /** The install step: the package file, unless a package named `nilrt-snac-conflicts` is listed. */
  function ConflictsEffect(shell: Shell, installed: seq<string>, dataDir: string, helperDryRun: Option<bool>): Effect {
    if Conflicts in installed then Unchanged(installed)
    else InstallEffect(shell, installed, ConflictsPackageFile(dataDir), false, helperDryRun)
  }

  /** The password step: only outside a dry run, with `check=True`. */
  function PasswordEffect(shell: Shell, installed: seq<string>, dryRun: bool): Effect {
    if dryRun then Unchanged(installed) else CommandEffect(shell, installed, ClearRootPassword, true)
  }

  /** The two removals: ni-auth with both force flags, then niacctbase-sudo. */
  function RemovalEffect(shell: Shell, installed: seq<string>, helperDryRun: Option<bool>): Effect {
    var e1 := RemoveEffect(shell, installed, NiAuth, false, false, true, true, helperDryRun);
    AndThen(e1, RemoveEffect(shell, e1.installed, AcctSudo, false, false, false, false, helperDryRun))
  }

  /** What `configure` does, step by step, each step starting from the list the previous one left. */
  function ConfigureEffect(shell: Shell, installed: seq<string>, dataDir: string, helperDryRun: Option<bool>,
                           dryRun: bool): Effect {
    var removed := RemovalEffect(shell, installed, helperDryRun);
    var conflicts := ConflictsEffect(shell, removed.installed, dataDir, helperDryRun);
    AndThen(removed, AndThen(conflicts, PasswordEffect(shell, conflicts.installed, dryRun)))
  }

  /** The calls that read the helper's dry-run flag (a listed package is removed, or the file installed). */
  predicate ReadsHelperDryRun(installed: seq<string>) {
    NiAuth in installed || AcctSudo in installed || Conflicts !in installed
  }

  /** What `verify` accepts. */
  predicate Valid(installed: seq<string>) {
    NiAuth !in installed && AcctSudo !in installed && Conflicts in installed
  }

  /** The two removals `configure` starts with. */
  method RemoveAuthPackages(shell: Shell, opkg: OpkgHelper) returns (r: Result<(), Failure>)
    requires NiAuth in opkg.installed || AcctSudo in opkg.installed ==> opkg.dryRun.Some?
    modifies shell, opkg
    ensures opkg.dryRun == old(opkg.dryRun)
    ensures shell.ran == old(shell.ran) + RemovalEffect(shell, old(opkg.installed), opkg.dryRun).ran
    ensures r == RemovalEffect(shell, old(opkg.installed), opkg.dryRun).result
    ensures opkg.installed == RemovalEffect(shell, old(opkg.installed), opkg.dryRun).installed
    ensures Conflicts in opkg.installed <==> Conflicts in old(opkg.installed)
  {
    ghost var ran0 := shell.ran;
    ghost var e1 := RemoveEffect(shell, opkg.installed, NiAuth, false, false, true, true, opkg.dryRun);
    RemovedKeepsOthers(opkg.installed, NiAuth, false, AcctSudo);
    RemovedKeepsOthers(opkg.installed, NiAuth, false, Conflicts);
    r := opkg.Remove(NiAuth, false, false, true, true, shell);
    if r.Err? {
      return;
    }
    ghost var e2 := RemoveEffect(shell, opkg.installed, AcctSudo, false, false, false, false, opkg.dryRun);
    RemovedKeepsOthers(opkg.installed, AcctSudo, false, Conflicts);
    r := opkg.Remove(AcctSudo, false, false, false, false, shell);
    AndThenRan(ran0, e1, e2);
  }

  /**
   * `configure`: each helper call that raises stops the rest; the list
   * changes as the helper's own calls change it, in a dry run too.
   */
  method Configure(shell: Shell, opkg: OpkgHelper, dataDir: string, dryRun: bool) returns (r: Result<(), Failure>)
    requires ReadsHelperDryRun(opkg.installed) ==> opkg.dryRun.Some?
    modifies shell, opkg
    ensures opkg.dryRun == old(opkg.dryRun)
    ensures shell.ran == old(shell.ran) + ConfigureEffect(shell, old(opkg.installed), dataDir, opkg.dryRun, dryRun).ran
    ensures r == ConfigureEffect(shell, old(opkg.installed), dataDir, opkg.dryRun, dryRun).result
    ensures opkg.installed == ConfigureEffect(shell, old(opkg.installed), dataDir, opkg.dryRun, dryRun).installed
  {
    ghost var ran0 := shell.ran;
    ghost var removed := RemovalEffect(shell, opkg.installed, opkg.dryRun);
    r := RemoveAuthPackages(shell, opkg);
    if r.Err? {
      return;
    }
    ghost var e3 := ConflictsEffect(shell, opkg.installed, dataDir, opkg.dryRun);
    if !opkg.IsInstalled(Conflicts) {
      r := opkg.Install(ConflictsPackageFile(dataDir), false, shell);
    }
    AndThenRan(ran0, removed, e3);
    if r.Err? {
      AndThenAssociative(removed, e3, PasswordEffect(shell, opkg.installed, dryRun));
      return;
    }
    ghost var e4 := PasswordEffect(shell, opkg.installed, dryRun);
    if !dryRun {
      var status := shell.Run(ClearRootPassword, true);
      r := Completed(status);
    }
    AndThenRan(ran0, AndThen(removed, e3), e4);
    AndThenAssociative(removed, e3, e4);
  }

  /** `verify`: all three checks run, and each failing one is reported. */
  method Verify(opkg: OpkgHelper) returns (valid: bool, errors: seq<string>)
    ensures valid <==> Valid(opkg.installed)
    ensures valid <==> errors == []
    ensures FoundNiAuth in errors <==> NiAuth in opkg.installed
    ensures FoundAcctSudo in errors <==> AcctSudo in opkg.installed
    ensures MissingConflicts in errors <==> Conflicts !in opkg.installed
  {
    valid := true;
    errors := [];
    if opkg.IsInstalled(NiAuth) {
      valid := false;
      errors := errors + [FoundNiAuth];
    }
    if opkg.IsInstalled(AcctSudo) {
      valid := false;
      errors := errors + [FoundAcctSudo];
    }
    if !opkg.IsInstalled(Conflicts) {
      valid := false;
      errors := errors + [MissingConflicts];
    }
  }

  /**
   * The helper records the package FILE it installed, not the package name,
   * so when `nilrt-snac-conflicts` was not listed before, `verify` still
   * fails after `configure`, however it went.
   */
  lemma ConflictsStayMissing(shell: Shell, installed: seq<string>, dataDir: string, helperDryRun: Option<bool>, dryRun: bool)
    requires Conflicts !in installed
    ensures !Valid(ConfigureEffect(shell, installed, dataDir, helperDryRun, dryRun).installed)
  {
    var removed := RemovalEffect(shell, installed, helperDryRun);
    RemovalKeepsConflictsMissing(shell, installed, helperDryRun);
    var file := ConflictsPackageFile(dataDir);
    assert |file| > |Conflicts|;
    var e3 := ConflictsEffect(shell, removed.installed, dataDir, helperDryRun);
    assert Conflicts !in e3.installed by {
      if file !in removed.installed && e3.installed != removed.installed {
        assert e3.installed == removed.installed + [file];
      }
    }
  }

  /** Neither removal lists the conflicts package. */
  lemma RemovalKeepsConflictsMissing(shell: Shell, installed: seq<string>, helperDryRun: Option<bool>)
    requires Conflicts !in installed
    ensures Conflicts !in RemovalEffect(shell, installed, helperDryRun).installed
  {
    var e1 := RemoveEffect(shell, installed, NiAuth, false, false, true, true, helperDryRun);
    RemovedKeepsOthers(installed, NiAuth, false, Conflicts);
    RemovedKeepsOthers(e1.installed, AcctSudo, false, Conflicts);
  }

  /**
   * When the conflicts package is already listed and each of the two removed
   * packages is listed at most once, a `configure` that succeeds makes
   * `verify` pass.
   */
  lemma ConfigureThenValid(shell: Shell, installed: seq<string>, dataDir: string, helperDryRun: Option<bool>, dryRun: bool)
    requires Conflicts in installed
    requires multiset(installed)[NiAuth] <= 1 && multiset(installed)[AcctSudo] <= 1
    requires ConfigureEffect(shell, installed, dataDir, helperDryRun, dryRun).result.Ok?
    ensures Valid(ConfigureEffect(shell, installed, dataDir, helperDryRun, dryRun).installed)
  {
    var removed := RemovalEffect(shell, installed, helperDryRun);
    assert removed.result.Ok?;
    RemovalThenValid(shell, installed, helperDryRun);
    RemovedKeepsOthers(installed, NiAuth, false, Conflicts);
    var e1 := RemoveEffect(shell, installed, NiAuth, false, false, true, true, helperDryRun);
    RemovedKeepsOthers(e1.installed, AcctSudo, false, Conflicts);
    assert Conflicts in removed.installed;
    assert ConflictsEffect(shell, removed.installed, dataDir, helperDryRun) == Unchanged(removed.installed);
  }

  /** Both removals succeeding leave neither package listed, when each was listed at most once. */
  lemma RemovalThenValid(shell: Shell, installed: seq<string>, helperDryRun: Option<bool>)
    requires multiset(installed)[NiAuth] <= 1 && multiset(installed)[AcctSudo] <= 1
    requires RemovalEffect(shell, installed, helperDryRun).result.Ok?
    ensures NiAuth !in RemovalEffect(shell, installed, helperDryRun).installed
    ensures AcctSudo !in RemovalEffect(shell, installed, helperDryRun).installed
  {
    var e1 := RemoveEffect(shell, installed, NiAuth, false, false, true, true, helperDryRun);
    var e2 := RemoveEffect(shell, e1.installed, AcctSudo, false, false, false, false, helperDryRun);
    assert e1.result.Ok?;
    assert multiset(e1.installed)[AcctSudo] <= 1 by {
      if NiAuth in installed {
        assert multiset(e1.installed) == multiset(installed) - multiset{NiAuth};
      }
    }
    assert e2.result.Ok?;
    assert NiAuth !in e2.installed by {
      if AcctSudo in e1.installed {
        assert multiset(e2.installed) == multiset(e1.installed) - multiset{AcctSudo};
        assert multiset(e2.installed)[NiAuth] == 0;
      }
    }
  }
}
