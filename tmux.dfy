/**
 * `_TmuxConfig`: installs tmux, locks idle tmux sessions, and makes login
 * shells over ssh or the console run inside tmux. Each of the two files is
 * written only when it does not exist yet.
 */
module TmuxConfig {
  import opened Wrappers
  import opened Text
  import opened SnacErrors
  import opened Host
  import opened ConfigFiles
  import Opkg
  import Patterns

  const SnacConfPath := "/usr/share/tmux/conf.d/snac.conf"
  const ProfilePath := "/etc/profile.d/tmux.sh"
  const Package := "tmux"

  const LockMarker := "set -g lock-after-time"
  const ExecMarker := "exec tmux"

  const SnacBlock := "\n# NILRT SNAC configuration tmux-snac.conf. Do not hand-edit.\n" + LockMarker + " 900\n"
  const ProfileHead :=
    "\n# NILRT SNAC configuration tmux.sh. Do not hand-edit.\n"
    + "if [ \"$PS1\" ]; then\n"
    + "    parent=$(ps -o ppid= -p $$)\n"
    + "    name=$(ps -o comm= -p $parent)\n"
    + "    case \"$name\" in (sshd|login) "
  const ProfileTail := " ;; esac\nfi\n"
  const ProfileBlock := ProfileHead + ExecMarker + ProfileTail

  const MissingPackage := "MISSING: tmux not installed"
  const MissingSnacConf := "MISSING: " + SnacConfPath + " not found"
  const MissingLock := "MISSING: commands to inactivity lock"
  const MissingProfile := "MISSING: " + ProfilePath + " not found"
  const MissingExec := "MISSING: command to replace shell with tmux"

  /** `if not exists(): add(block)` on a freshly loaded file. */
  function CreatedText(files: map<string, FileEntry>, path: string, block: string): string {
    if path in files then files[path].content else block
  }

  /** The files after a successful `configure`. */
  function Configured(files: map<string, FileEntry>, dryRun: bool): map<string, FileEntry> {
    if dryRun then files
    else
      SavedAs(SavedAs(files, SnacConfPath, CreatedText(files, SnacConfPath, SnacBlock)),
              ProfilePath, CreatedText(files, ProfilePath, ProfileBlock))
  }

  /** What `verify` accepts. */
  predicate Valid(installed: seq<string>, files: map<string, FileEntry>) {
    Package in installed
    && SnacConfPath in files && Patterns.Search(files[SnacConfPath].content, LockMarker)
    && ProfilePath in files && Patterns.Search(files[ProfilePath].content, ExecMarker)
  }

  /**
   * `configure`: asks the helper to install tmux (a failure stops here), then
   * creates whichever of the two files is missing.
   */
  method Configure(fs: FileSystem, shell: Shell, opkg: Opkg.OpkgHelper, dryRun: bool) returns (r: Result<(), Failure>)
    requires Package !in opkg.installed ==> opkg.dryRun.Some?
    modifies fs, shell, opkg
    ensures opkg.dryRun == old(opkg.dryRun)
    ensures shell.ran == old(shell.ran) + Opkg.InstallRuns(old(opkg.installed), Package, false, opkg.dryRun)
    ensures r == Opkg.InstallResult(shell, old(opkg.installed), Package, false, opkg.dryRun)
    ensures r.Ok? ==> opkg.installed == Opkg.WithPackage(old(opkg.installed), Package)
                      && fs.files == Configured(old(fs.files), dryRun)
    ensures r.Err? ==> opkg.installed == old(opkg.installed) && fs.files == old(fs.files)
  {
    var snacConfig := new ConfigFile(fs, SnacConfPath);
    var profile := new ConfigFile(fs, ProfilePath);
    r := opkg.Install(Package, false, shell);
    if r.Err? {
      return;
    }
    if !snacConfig.Exists(fs) {
      snacConfig.Add(SnacBlock);
    }
    if !profile.Exists(fs) {
      profile.Add(ProfileBlock);
    }
    assert snacConfig.config == CreatedText(fs.files, SnacConfPath, SnacBlock);
    assert profile.config == CreatedText(fs.files, ProfilePath, ProfileBlock);
    snacConfig.Save(fs, dryRun);
    assert profile.LoadedFrom(fs.files);
    profile.Save(fs, dryRun);
  }

  /** `verify`: all five checks run, and each failing one is reported. */
  method Verify(fs: FileSystem, opkg: Opkg.OpkgHelper) returns (valid: bool, errors: seq<string>)
    ensures valid <==> Valid(opkg.installed, fs.files)
    ensures valid <==> errors == []
    ensures MissingPackage in errors <==> Package !in opkg.installed
    ensures MissingSnacConf in errors <==> SnacConfPath !in fs.files
    ensures MissingLock in errors <==> !Patterns.Search(TextOf(fs.files, SnacConfPath), LockMarker)
    ensures MissingProfile in errors <==> ProfilePath !in fs.files
    ensures MissingExec in errors <==> !Patterns.Search(TextOf(fs.files, ProfilePath), ExecMarker)
  {
    var snacConfig := new ConfigFile(fs, SnacConfPath);
    var profile := new ConfigFile(fs, ProfilePath);
    valid := true;
    errors := [];
    if !opkg.IsInstalled(Package) {
      valid := false;
      errors := errors + [MissingPackage];
    }
    if !snacConfig.Exists(fs) {
      valid := false;
      errors := errors + [MissingSnacConf];
    }
    if !snacConfig.Contains(LockMarker) {
      valid := false;
      errors := errors + [MissingLock];
    }
    if !profile.Exists(fs) {
      valid := false;
      errors := errors + [MissingProfile];
    }
    if !profile.Contains(ExecMarker) {
      valid := false;
      errors := errors + [MissingExec];
    }
  }

  lemma BlocksHaveMarkers()
    ensures Patterns.Search(SnacBlock, LockMarker) && Patterns.Search(ProfileBlock, ExecMarker)
  {
    var snacHead := "\n# NILRT SNAC configuration tmux-snac.conf. Do not hand-edit.\n";
    assert SnacBlock == snacHead + LockMarker + " 900\n";
    ContainsMiddle(snacHead, LockMarker, " 900\n");
    Patterns.ContainsSearch(SnacBlock, LockMarker);
    ContainsMiddle(ProfileHead, ExecMarker, ProfileTail);
    Patterns.ContainsSearch(ProfileBlock, ExecMarker);
  }

  /**
   * After a successful real `configure`, `verify` passes exactly when each of
   * the two files was either missing or already held its setting: an
   * existing file is never amended.
   */
  lemma ConfigureThenValid(installed: seq<string>, files: map<string, FileEntry>)
    ensures Valid(Opkg.WithPackage(installed, Package), Configured(files, false)) <==>
      (SnacConfPath !in files || Patterns.Search(files[SnacConfPath].content, LockMarker))
      && (ProfilePath !in files || Patterns.Search(files[ProfilePath].content, ExecMarker))
  {
    BlocksHaveMarkers();
    var after := Configured(files, false);
    assert after[SnacConfPath].content == CreatedText(files, SnacConfPath, SnacBlock);
    assert after[ProfilePath].content == CreatedText(files, ProfilePath, ProfileBlock);
  }
}
