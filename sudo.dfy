/**
 * `_SudoConfig`: a sudoers drop-in that makes sudo ask for the password every
 * time. The file is written only when it does not exist yet.
 */
module SudoConfig {
  import opened Text
  import opened Host
  import opened ConfigFiles
  import Patterns

  const ConfPath := "/etc/sudoers.d/snac"
  const Marker := "Defaults timestamp_timeout=0"
  const Block := "\n# NILRT SNAC configuration sudoers. Do not hand-edit.\n" + Marker + "\n"

  const MissingFile := "MISSING: " + ConfPath + " not found"
  const MissingTimeout := "MISSING: immediate timestamp_timeout"

  /** The files after `configure`: the drop-in is created from the block, an existing one is saved as it is. */
  function Configured(files: map<string, FileEntry>, dryRun: bool): map<string, FileEntry> {
    if dryRun then files
    else SavedAs(files, ConfPath, if ConfPath in files then files[ConfPath].content else "" + Block)
  }

  /** What `verify` accepts. */
  predicate Valid(files: map<string, FileEntry>) {
    ConfPath in files && Patterns.Search(files[ConfPath].content, Marker)
  }

  /** `configure`. */
  method Configure(fs: FileSystem, dryRun: bool)
    modifies fs
    ensures fs.files == Configured(old(fs.files), dryRun)
  {
    var configFile := new ConfigFile(fs, ConfPath);
    if !configFile.Exists(fs) {
      configFile.Add(Block);
    }
    configFile.Save(fs, dryRun);
  }

  /** `verify`: a missing file is the only complaint; otherwise the setting is checked. */
  method Verify(fs: FileSystem) returns (valid: bool, errors: seq<string>)
    ensures valid <==> Valid(fs.files)
    ensures ConfPath !in fs.files ==> errors == [MissingFile]
    ensures ConfPath in fs.files ==> errors == (if valid then [] else [MissingTimeout])
  {
    var configFile := new ConfigFile(fs, ConfPath);
    valid := true;
    errors := [];
    if !configFile.Exists(fs) {
      valid := false;
      errors := errors + [MissingFile];
    } else if !configFile.Contains(Marker) {
      valid := false;
      errors := errors + [MissingTimeout];
    }
  }

  /** An existing drop-in is never changed, so `configure` fixes `verify` only when the file is missing. */
  lemma ConfigureKeepsExisting(files: map<string, FileEntry>)
    requires ConfPath in files
    ensures Configured(files, false) == files
  {
    SavedAsUnchanged(files, ConfPath);
  }

  /** After a real `configure`, `verify` passes exactly when the file was missing or already had the setting. */
  lemma ConfigureThenValid(files: map<string, FileEntry>)
    ensures Valid(Configured(files, false)) <==> ConfPath !in files || Valid(files)
  {
    if ConfPath in files {
      ConfigureKeepsExisting(files);
    } else {
      assert "" + Block == "\n# NILRT SNAC configuration sudoers. Do not hand-edit.\n" + Marker + "\n";
      ContainsMiddle("\n# NILRT SNAC configuration sudoers. Do not hand-edit.\n", Marker, "\n");
      Patterns.ContainsSearch(Block, Marker);
    }
  }
}
