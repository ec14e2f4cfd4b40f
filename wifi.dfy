/**
 * `_WIFIConfig`: blocks the kernel's WiFi modules by making their installation
 * run `/bin/true`, and unloads them.
 */
module WifiConfig {
  import opened Wrappers
  import opened Text
  import opened SnacErrors
  import opened Host
  import opened ConfigFiles
  import Patterns

  const ConfPath := "/etc/modprobe.d/snac_blacklist.conf"
  const Marker := "install cfg80211 /bin/true"
  const Block :=
    "\n# Do not allow WiFi connections\n"
    + "# We cannot use the blacklist keyword because they will still be loaded\n"
    + "# when another module depends on them. This will prevent the modules from\n"
    + "# being loaded along with any modules that depends on them.\n"
    + "install cfg80211 /bin/true\n"
    + "install mac80211 /bin/true\n"
  const Unload := ["rmmod", "cfg80211", "mac80211"]

  const MissingFile := "MISSING: " + ConfPath + " not found"
  const MissingMarker := "MISSING: commands to fail install of WiFi modules"

  lemma BlockHasMarker()
    ensures Contains(Block, Marker)
  {
    var pre := "\n# Do not allow WiFi connections\n"
      + "# We cannot use the blacklist keyword because they will still be loaded\n"
      + "# when another module depends on them. This will prevent the modules from\n"
      + "# being loaded along with any modules that depends on them.\n";
    assert Block == pre + Marker + "\ninstall mac80211 /bin/true\n";
    ContainsMiddle(pre, Marker, "\ninstall mac80211 /bin/true\n");
  }

  /** The files after `configure`: the block file gains the block unless it already blocks cfg80211. */
  function Configured(files: map<string, FileEntry>, dryRun: bool): map<string, FileEntry> {
    if dryRun then files else SavedAs(files, ConfPath, AddedIfMissing(TextOf(files, ConfPath), Marker, Block))
  }

  /** What `verify` accepts: the file exists and blocks cfg80211. */
  predicate Valid(files: map<string, FileEntry>) {
    ConfPath in files && Patterns.Search(files[ConfPath].content, Marker)
  }

  /**
   * `configure`: adds the block when missing and saves; outside a dry run it
   * then unloads the modules, ignoring rmmod's status.
   */
  method Configure(fs: FileSystem, shell: Shell, dryRun: bool) returns (r: Result<(), Failure>)
    modifies fs, shell
    ensures fs.files == Configured(old(fs.files), dryRun)
    ensures dryRun ==> r.Ok? && shell.ran == old(shell.ran)
    ensures !dryRun ==> shell.ran == old(shell.ran) + [Unload] && r == Completed(shell.Outcome(Unload, false))
  {
    var configFile := new ConfigFile(fs, ConfPath);
    if !configFile.Contains(Marker) {
      configFile.Add(Block);
    }
    configFile.Save(fs, dryRun);
    r := Ok(());
    if !dryRun {
      var status := shell.Run(Unload, false);
      r := Completed(status);
    }
  }

  /** `verify`: both checks run, and each failing one is reported. */
  method Verify(fs: FileSystem) returns (valid: bool, errors: seq<string>)
    ensures valid <==> Valid(fs.files)
    ensures MissingFile in errors <==> ConfPath !in fs.files
    ensures MissingMarker in errors <==> !Patterns.Search(TextOf(fs.files, ConfPath), Marker)
    ensures valid <==> errors == []
  {
    var configFile := new ConfigFile(fs, ConfPath);
    valid := true;
    errors := [];
    if !configFile.Exists(fs) {
      valid := false;
      errors := errors + [MissingFile];
    }
    if !configFile.Contains(Marker) {
      valid := false;
      errors := errors + [MissingMarker];
    }
  }

  /** After a real `configure`, `verify` passes, whatever the file held before. */
  lemma ConfigureThenValid(files: map<string, FileEntry>)
    ensures Valid(Configured(files, false))
  {
    BlockHasMarker();
    AddedIfMissingHasMarker(TextOf(files, ConfPath), Marker, Block);
  }

  /** Running `configure` twice leaves the same files as running it once. */
  lemma ConfigureIdempotent(files: map<string, FileEntry>)
    ensures Configured(Configured(files, false), false) == Configured(files, false)
  {
    BlockHasMarker();
    AddAndSaveIdempotent(files, ConfPath, Marker, Block);
  }
}
