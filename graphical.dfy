/**
 * `_GraphicalConfig`: turns the embedded UI off and removes the graphical
 * package groups.
 */
module GraphicalConfig {
  import opened Wrappers
  import opened SnacErrors
  import opened Host
  import opened Opkg

  const NiGraphical := "packagegroup-ni-graphical"
  const CoreX11 := "packagegroup-core-x11"
  const NiXfce := "packagegroup-ni-xfce"
  const SettingsUi := "sysconfig-settings-ui"
  const DisableUi := ["nirtcfg", "--set", "section=systemsettings,token=ui.enabled,value=False"]

  /** The packages `verify` forbids, in the order it checks them. */
  const Forbidden := [NiGraphical, CoreX11, NiXfce, SettingsUi]

  /** The UI switch: only outside a dry run, with `check=True`. */
  function DisableUiEffect(shell: Shell, installed: seq<string>, dryRun: bool): Effect {
    if dryRun then Unchanged(installed) else CommandEffect(shell, installed, DisableUi, true)
  }

  /** The two removals, both with `--autoremove`. */
  function RemovalEffect(shell: Shell, installed: seq<string>, helperDryRun: Option<bool>): Effect {
    var e1 := RemoveEffect(shell, installed, NiGraphical, true, false, false, false, helperDryRun);
    AndThen(e1, RemoveEffect(shell, e1.installed, CoreX11, true, false, false, false, helperDryRun))
  }

  function ConfigureEffect(shell: Shell, installed: seq<string>, helperDryRun: Option<bool>, dryRun: bool): Effect {
    var ui := DisableUiEffect(shell, installed, dryRun);
    AndThen(ui, RemovalEffect(shell, ui.installed, helperDryRun))
  }

  /** The forbidden packages that are listed, in checking order. */
  function FoundIn(packages: seq<string>, installed: seq<string>): (r: seq<string>)
    ensures forall p :: p in r <==> p in packages && p in installed
  {
    if |packages| == 0 then []
    else (if packages[0] in installed then [packages[0]] else []) + FoundIn(packages[1..], installed)
  }

  predicate Valid(installed: seq<string>) {
    forall p :: p in Forbidden ==> p !in installed
  }

  /** The two removals `configure` ends with. */
  method RemoveGraphicalPackages(shell: Shell, opkg: OpkgHelper) returns (r: Result<(), Failure>)
    requires NiGraphical in opkg.installed || CoreX11 in opkg.installed ==> opkg.dryRun.Some?
    modifies shell, opkg
    ensures opkg.dryRun == old(opkg.dryRun)
    ensures shell.ran == old(shell.ran) + RemovalEffect(shell, old(opkg.installed), opkg.dryRun).ran
    ensures r == RemovalEffect(shell, old(opkg.installed), opkg.dryRun).result
    ensures opkg.installed == RemovalEffect(shell, old(opkg.installed), opkg.dryRun).installed
  {
    ghost var ran0 := shell.ran;
    ghost var e1 := RemoveEffect(shell, opkg.installed, NiGraphical, true, false, false, false, opkg.dryRun);
    RemovedKeepsOthers(opkg.installed, NiGraphical, false, CoreX11);
    r := opkg.Remove(NiGraphical, true, false, false, false, shell);
    if r.Err? {
      return;
    }
    ghost var e2 := RemoveEffect(shell, opkg.installed, CoreX11, true, false, false, false, opkg.dryRun);
    r := opkg.Remove(CoreX11, true, false, false, false, shell);
    AndThenRan(ran0, e1, e2);
  }

  /** `configure`: the UI switch first (a failure stops everything), then the removals. */
  method Configure(shell: Shell, opkg: OpkgHelper, dryRun: bool) returns (r: Result<(), Failure>)
    requires NiGraphical in opkg.installed || CoreX11 in opkg.installed ==> opkg.dryRun.Some?
    modifies shell, opkg
    ensures opkg.dryRun == old(opkg.dryRun)
    ensures shell.ran == old(shell.ran) + ConfigureEffect(shell, old(opkg.installed), opkg.dryRun, dryRun).ran
    ensures r == ConfigureEffect(shell, old(opkg.installed), opkg.dryRun, dryRun).result
    ensures opkg.installed == ConfigureEffect(shell, old(opkg.installed), opkg.dryRun, dryRun).installed
  {
    ghost var ran0 := shell.ran;
    ghost var ui := DisableUiEffect(shell, opkg.installed, dryRun);
    if !dryRun {
      var status := shell.Run(DisableUi, true);
      if status.Err? {
        return Err(status.error);
      }
    }
    ghost var removed := RemovalEffect(shell, opkg.installed, opkg.dryRun);
    r := RemoveGraphicalPackages(shell, opkg);
    AndThenRan(ran0, ui, removed);
  }

  /** The `verify` loop: checks every package in turn and never stops early. */
  method FindListed(packages: seq<string>, opkg: OpkgHelper) returns (valid: bool, found: seq<string>)
    ensures found == FoundIn(packages, opkg.installed)
    ensures valid <==> found == []
  {
    valid := true;
    found := [];
    var i := 0;
    while i < |packages|
      invariant 0 <= i <= |packages|
      invariant found + FoundIn(packages[i..], opkg.installed) == FoundIn(packages, opkg.installed)
      invariant valid <==> found == []
    {
      var pkg := packages[i];
      assert packages[i..] == [pkg] + packages[i + 1..];
      var listed := opkg.IsInstalled(pkg);
      assert listed == (pkg in opkg.installed);
      if listed {
        valid := false;
        found := found + [pkg];
      }
      i := i + 1;
    }
  }

  /** `verify`: every forbidden package is checked, and each listed one is reported. */
  method Verify(opkg: OpkgHelper) returns (valid: bool, found: seq<string>)
    ensures valid <==> Valid(opkg.installed)
    ensures found == FoundIn(Forbidden, opkg.installed)
    ensures valid <==> found == []
  {
    valid, found := FindListed(Forbidden, opkg);
    assert found != [] ==> found[0] in found;
  }

  /** The removals keep every other name listed as it was. */
  lemma RemovalKeepsOthers(shell: Shell, installed: seq<string>, helperDryRun: Option<bool>, other: string)
    requires other != NiGraphical && other != CoreX11
    ensures other in RemovalEffect(shell, installed, helperDryRun).installed <==> other in installed
  {
    var e1 := RemoveEffect(shell, installed, NiGraphical, true, false, false, false, helperDryRun);
    RemovedKeepsOthers(installed, NiGraphical, false, other);
    RemovedKeepsOthers(e1.installed, CoreX11, false, other);
  }

  /** `configure` never removes the xfce group or the settings UI, so either one keeps `verify` failing. */
  lemma LeftoversStayForbidden(shell: Shell, installed: seq<string>, helperDryRun: Option<bool>, dryRun: bool)
    requires NiXfce in installed || SettingsUi in installed
    ensures !Valid(ConfigureEffect(shell, installed, helperDryRun, dryRun).installed)
  {
    var ui := DisableUiEffect(shell, installed, dryRun);
    RemovalKeepsOthers(shell, installed, helperDryRun, NiXfce);
    RemovalKeepsOthers(shell, installed, helperDryRun, SettingsUi);
  }

  /**
   * Without the two leftovers, and with each removed group listed at most
   * once, a `configure` that succeeds makes `verify` pass.
   */
  lemma ConfigureThenValid(shell: Shell, installed: seq<string>, helperDryRun: Option<bool>, dryRun: bool)
    requires NiXfce !in installed && SettingsUi !in installed
    requires multiset(installed)[NiGraphical] <= 1 && multiset(installed)[CoreX11] <= 1
    requires ConfigureEffect(shell, installed, helperDryRun, dryRun).result.Ok?
    ensures Valid(ConfigureEffect(shell, installed, helperDryRun, dryRun).installed)
  {
    var removed := RemovalEffect(shell, installed, helperDryRun);
    assert removed.result.Ok?;
    RemovalKeepsOthers(shell, installed, helperDryRun, NiXfce);
    RemovalKeepsOthers(shell, installed, helperDryRun, SettingsUi);
    var e1 := RemoveEffect(shell, installed, NiGraphical, true, false, false, false, helperDryRun);
    assert multiset(e1.installed)[CoreX11] <= 1 && NiGraphical !in e1.installed by {
      if NiGraphical in installed {
        assert multiset(e1.installed) == multiset(installed) - multiset{NiGraphical};
      }
    }
    var e2 := RemoveEffect(shell, e1.installed, CoreX11, true, false, false, false, helperDryRun);
    assert NiGraphical !in e2.installed by {
      RemovedKeepsOthers(e1.installed, CoreX11, false, NiGraphical);
    }
  }
}
