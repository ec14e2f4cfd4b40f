/**
 * `_FaillockConfig`: installs the PAM faillock plugin through the older helper,
 * a different object from the one the other steps share.
 */
module FaillockConfig {
  import opened Wrappers
  import opened SnacErrors
  import opened Host
  import Opkg
  import OpkgLegacy

  const Package := "pam-plugin-faillock"
  const MissingPackage := "MISSING: pam-plugin-faillock not installed"

  /**
   * `configure`: asks the helper to install the package. The list holds it
   * afterwards whenever the call returns, in a dry run too.
   */
  method Configure(shell: Shell, opkg: OpkgLegacy.OpkgHelper) returns (r: Result<(), Failure>)
    requires Package !in opkg.installed ==> opkg.dryRun.Some?
    modifies shell, opkg
    ensures opkg.dryRun == old(opkg.dryRun)
    ensures shell.ran == old(shell.ran) + Opkg.InstallRuns(old(opkg.installed), Package, false, opkg.dryRun)
    ensures r == Opkg.InstallResult(shell, old(opkg.installed), Package, false, opkg.dryRun)
    ensures r.Ok? ==> opkg.installed == Opkg.WithPackage(old(opkg.installed), Package) && Package in opkg.installed
    ensures r.Err? ==> opkg.installed == old(opkg.installed) && Package !in opkg.installed
  {
    r := opkg.Install(Package, false, shell);
  }

  /** `verify`: membership in the helper's list, which it leaves alone. */
  method Verify(opkg: OpkgLegacy.OpkgHelper) returns (valid: bool, errors: seq<string>)
    ensures valid <==> Package in opkg.installed
    ensures errors == (if valid then [] else [MissingPackage])
  {
    valid := true;
    errors := [];
    if !opkg.IsInstalled(Package) {
      valid := false;
      errors := errors + [MissingPackage];
    }
  }
}
