/**
 * `_X11Config`: removes the X11 and xfce package groups, and every xfce
 * Japanese locale package by glob.
 */
module X11Config {
  import opened Wrappers
  import opened SnacErrors
  import opened Host
  import opened Opkg

  const CoreX11 := "packagegroup-core-x11"
  const NiXfce := "packagegroup-ni-xfce"
  /** A glob opkg expands; the helper's list never holds it, so it is removed untracked. */
  const JapaneseLocales := "*xfce4*-locale-ja*"

  const FoundCoreX11 := "FOUND: packagegroup-core-x11 installed"
  const FoundNiXfce := "FOUND: packagegroup-ni-xfce installed"

  function ConfigureEffect(shell: Shell, installed: seq<string>, helperDryRun: Option<bool>): Effect {
    var e1 := RemoveEffect(shell, installed, CoreX11, false, false, false, false, helperDryRun);
    var e2 := RemoveEffect(shell, e1.installed, NiXfce, false, false, false, false, helperDryRun);
    AndThen(e1, AndThen(e2, RemoveEffect(shell, e2.installed, JapaneseLocales, false, true, false, false, helperDryRun)))
  }

  predicate Valid(installed: seq<string>) {
    CoreX11 !in installed && NiXfce !in installed
  }

  /**
   * `configure`: three removals, each stopping the rest when it raises. The
   * glob removal always starts its command, so the helper's dry-run flag is
   * always read.
   */
  method Configure(shell: Shell, opkg: OpkgHelper) returns (r: Result<(), Failure>)
    requires opkg.dryRun.Some?
    modifies shell, opkg
    ensures opkg.dryRun == old(opkg.dryRun)
    ensures shell.ran == old(shell.ran) + ConfigureEffect(shell, old(opkg.installed), opkg.dryRun).ran
    ensures r == ConfigureEffect(shell, old(opkg.installed), opkg.dryRun).result
    ensures opkg.installed == ConfigureEffect(shell, old(opkg.installed), opkg.dryRun).installed
  {
    ghost var ran0 := shell.ran;
    ghost var e1 := RemoveEffect(shell, opkg.installed, CoreX11, false, false, false, false, opkg.dryRun);
    r := opkg.Remove(CoreX11, false, false, false, false, shell);
    if r.Err? {
      return;
    }
    ghost var e2 := RemoveEffect(shell, opkg.installed, NiXfce, false, false, false, false, opkg.dryRun);
    r := opkg.Remove(NiXfce, false, false, false, false, shell);
    AndThenRan(ran0, e1, e2);
    if r.Err? {
      return;
    }
    ghost var e3 := RemoveEffect(shell, opkg.installed, JapaneseLocales, false, true, false, false, opkg.dryRun);
    r := opkg.Remove(JapaneseLocales, false, true, false, false, shell);
    AndThenRan(ran0 + e1.ran, e2, e3);
    AndThenRan(ran0, e1, AndThen(e2, e3));
  }

  /** `verify`: both checks run, and each failing one is reported. */
  method Verify(opkg: OpkgHelper) returns (valid: bool, errors: seq<string>)
    ensures valid <==> Valid(opkg.installed)
    ensures valid <==> errors == []
    ensures FoundCoreX11 in errors <==> CoreX11 in opkg.installed
    ensures FoundNiXfce in errors <==> NiXfce in opkg.installed
  {
    valid := true;
    errors := [];
    if opkg.IsInstalled(CoreX11) {
      valid := false;
      errors := errors + [FoundCoreX11];
    }
    if opkg.IsInstalled(NiXfce) {
      valid := false;
      errors := errors + [FoundNiXfce];
    }
  }

  /** The glob removal leaves the list as it was: only the two named groups leave it. */
  lemma GlobRemovalUntracked(shell: Shell, installed: seq<string>, helperDryRun: Option<bool>)
    ensures RemoveEffect(shell, installed, JapaneseLocales, false, true, false, false, helperDryRun).installed == installed
  {
  }

  /** With each group listed at most once, a `configure` that succeeds makes `verify` pass. */
  lemma ConfigureThenValid(shell: Shell, installed: seq<string>, helperDryRun: Option<bool>)
    requires multiset(installed)[CoreX11] <= 1 && multiset(installed)[NiXfce] <= 1
    requires ConfigureEffect(shell, installed, helperDryRun).result.Ok?
    ensures Valid(ConfigureEffect(shell, installed, helperDryRun).installed)
  {
    var e1 := RemoveEffect(shell, installed, CoreX11, false, false, false, false, helperDryRun);
    assert e1.result.Ok?;
    assert multiset(e1.installed)[NiXfce] <= 1 && CoreX11 !in e1.installed by {
      if CoreX11 in installed {
        assert multiset(e1.installed) == multiset(installed) - multiset{CoreX11};
      }
    }
    var e2 := RemoveEffect(shell, e1.installed, NiXfce, false, false, false, false, helperDryRun);
    assert e2.result.Ok?;
    RemovedKeepsOthers(e1.installed, NiXfce, false, CoreX11);
  }
}
