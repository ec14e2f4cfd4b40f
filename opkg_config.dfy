/**
 * `_OPKGConfig`: turns on opkg's autoremove, deletes the NI package feed
 * file, and empties every base feed line that starts with `src` and names an
 * extra feed.
 */
module OpkgConfig {
  import opened Wrappers
  import opened Text
  import opened SnacErrors
  import opened Host
  import opened ConfigFiles
  import opened Patterns
  import Opkg

  const SnacConfPath := Opkg.SnacConf
  const BaseFeedsPath := "/etc/opkg/base-feeds.conf"
  const NiDistPath := "/etc/opkg/NI-dist.conf"
  const Marker := "option autoremove 1"
  const Block := "\n# NILRT SNAC configuration opkg runparts. Do not hand-edit.\n" + Marker + "\n"
  const DeleteNiDist := ["rm", "-fv", NiDistPath]

  const MissingFile := "MISSING: " + SnacConfPath + " not found"
  const MissingMarker := "MISSING: 'option autoremove 1' not found in " + SnacConfPath
  const FoundExtra := "FOUND: 'src.*/extra/.*' found in " + BaseFeedsPath

  lemma BlockHasMarker()
    ensures Contains(Block, Marker)
  {
    ContainsMiddle("\n# NILRT SNAC configuration opkg runparts. Do not hand-edit.\n", Marker, "\n");
  }

  // The base feeds after the update that empties every line starting with `src`
  // and naming an extra feed; the update runs only when the search succeeds.
  function FeedsWithoutExtra(text: string): string {
    if SearchSrcExtra(text) then BlankLines(text, StartsSrcExtra) else text
  }

  /** The files after a real `configure` whose `rm` succeeded. */
  function Configured(files: map<string, FileEntry>): map<string, FileEntry> {
    var kept := files - {NiDistPath};
    SavedAs(SavedAs(kept, SnacConfPath, AddedIfMissing(TextOf(files, SnacConfPath), Marker, Block)),
            BaseFeedsPath, FeedsWithoutExtra(TextOf(files, BaseFeedsPath)))
  }

  /** The `rm` that `configure` starts: only outside a dry run, and only when the NI feed file exists. */
  function DeleteRuns(files: map<string, FileEntry>, dryRun: bool): seq<seq<string>> {
    if NiDistPath in files && !dryRun then [DeleteNiDist] else []
  }

  function DeleteResult(shell: Shell, files: map<string, FileEntry>, dryRun: bool): Result<(), Failure> {
    if NiDistPath in files && !dryRun then Completed(shell.Outcome(DeleteNiDist, true)) else Ok(())
  }

  /** Deletes the NI feed file with `rm -fv` (checked), outside a dry run and only when it exists. */
  method DeleteFeedFile(fs: FileSystem, shell: Shell, dryRun: bool) returns (r: Result<(), Failure>)
    modifies fs, shell
    ensures r == DeleteResult(shell, old(fs.files), dryRun)
    ensures shell.ran == old(shell.ran) + DeleteRuns(old(fs.files), dryRun)
    ensures r.Err? || dryRun ==> fs.files == old(fs.files)
    ensures r.Ok? && !dryRun ==> fs.files == old(fs.files) - {NiDistPath}
  {
    r := Ok(());
    if NiDistPath in fs.files && !dryRun {
      var status := shell.Run(DeleteNiDist, true);
      if status.Err? {
        return Err(status.error);
      }
      fs.Delete(NiDistPath);
    } else if NiDistPath !in fs.files {
      assert fs.files - {NiDistPath} == fs.files;
    }
  }

  /** What `verify` accepts. */
  predicate Valid(files: map<string, FileEntry>) {
    SnacConfPath in files && Search(files[SnacConfPath].content, Marker)
    && !SearchSrcExtra(TextOf(files, BaseFeedsPath))
  }

  /** Saves the autoremove configuration, then the base feeds, each with the mode and owner it was loaded with. */
  method SaveBoth(fs: FileSystem, snacConfig: ConfigFile, baseFeeds: ConfigFile, dryRun: bool)
    requires snacConfig.path == SnacConfPath && baseFeeds.path == BaseFeedsPath
    requires snacConfig.LoadedFrom(fs.files) && baseFeeds.LoadedFrom(fs.files)
    modifies fs
    ensures fs.files == (if dryRun then old(fs.files)
                         else SavedAs(SavedAs(old(fs.files), SnacConfPath, snacConfig.config), BaseFeedsPath, baseFeeds.config))
  {
    snacConfig.Save(fs, dryRun);
    assert baseFeeds.LoadedFrom(fs.files);
    baseFeeds.Save(fs, dryRun);
  }

  /** Adds the marker block to the loaded opkg configuration when it lacks the marker. */
  method AddMarkerBlock(snacConfig: ConfigFile)
    modifies snacConfig
    ensures snacConfig.config == AddedIfMissing(old(snacConfig.config), Marker, Block)
    ensures snacConfig.mode == old(snacConfig.mode) && snacConfig.uid == old(snacConfig.uid)
            && snacConfig.gid == old(snacConfig.gid)
  {
    if !snacConfig.Contains(Marker) {
      snacConfig.Add(Block);
    }
  }

  /** Empties the loaded base feed lines that start with `src` and name an extra feed, when one does. */
  method DropExtraFeeds(baseFeeds: ConfigFile)
    modifies baseFeeds
    ensures baseFeeds.config == FeedsWithoutExtra(old(baseFeeds.config))
    ensures baseFeeds.mode == old(baseFeeds.mode) && baseFeeds.uid == old(baseFeeds.uid)
            && baseFeeds.gid == old(baseFeeds.gid)
  {
    if SearchSrcExtra(baseFeeds.config) {
      baseFeeds.Update(text => BlankLines(text, StartsSrcExtra));
    }
  }

  /**
   * `configure`: a failing `rm` stops before anything is saved; otherwise both
   * files are saved and `opkg update` runs, in a dry run too.
   */
  method Configure(fs: FileSystem, shell: Shell, opkg: Opkg.OpkgHelper, dryRun: bool) returns (r: Result<(), Failure>)
    modifies fs, shell
    ensures DeleteResult(shell, old(fs.files), dryRun).Err? ==>
      r == DeleteResult(shell, old(fs.files), dryRun) && fs.files == old(fs.files)
      && shell.ran == old(shell.ran) + DeleteRuns(old(fs.files), dryRun)
    ensures DeleteResult(shell, old(fs.files), dryRun).Ok? ==>
      fs.files == (if dryRun then old(fs.files) else Configured(old(fs.files)))
      && shell.ran == old(shell.ran) + DeleteRuns(old(fs.files), dryRun) + [["opkg", "update"]]
      && (r.Ok? <==> Opkg.RunOutcome(shell, ["update"]).Ok?)
      && (r.Err? ==> r.error == Opkg.RunOutcome(shell, ["update"]).error)
  {
    ghost var files0 := fs.files;
    var snacConfig := new ConfigFile(fs, SnacConfPath);
    var baseFeeds := new ConfigFile(fs, BaseFeedsPath);
    AddMarkerBlock(snacConfig);
    var deleted := DeleteFeedFile(fs, shell, dryRun);
    if deleted.Err? {
      return deleted;
    }
    DropExtraFeeds(baseFeeds);
    assert snacConfig.LoadedFrom(fs.files) && baseFeeds.LoadedFrom(fs.files);
    SaveBoth(fs, snacConfig, baseFeeds, dryRun);
    r := opkg.Update(shell);
  }

  /** `verify`: all three checks run, and each failing one is reported. */
  method Verify(fs: FileSystem) returns (valid: bool, errors: seq<string>)
    ensures valid <==> Valid(fs.files)
    ensures valid <==> errors == []
    ensures MissingFile in errors <==> SnacConfPath !in fs.files
    ensures MissingMarker in errors <==> !Search(TextOf(fs.files, SnacConfPath), Marker)
    ensures FoundExtra in errors <==> SearchSrcExtra(TextOf(fs.files, BaseFeedsPath))
  {
    var snacConfig := new ConfigFile(fs, SnacConfPath);
    var baseFeeds := new ConfigFile(fs, BaseFeedsPath);
    valid := true;
    errors := [];
    if !snacConfig.Exists(fs) {
      valid := false;
      errors := errors + [MissingFile];
    }
    if !snacConfig.Contains(Marker) {
      valid := false;
      errors := errors + [MissingMarker];
    }
    if SearchSrcExtra(baseFeeds.config) {
      valid := false;
      errors := errors + [FoundExtra];
    }
  }

  /** A feed line that `configure` cannot empty: it names an extra feed but does not start with `src`. */
  predicate Unfixable(line: string) {
    HasSrcExtra(line) && !StartsSrcExtra(line)
  }

  /**
   * After a real `configure`, `verify` passes exactly when no base feed line
   * names an extra feed without starting with `src` (a commented-out or
   * indented feed line keeps it failing).
   */
  lemma ConfigureThenValid(files: map<string, FileEntry>)
    ensures Valid(Configured(files)) <==>
      forall k :: 0 <= k < |Lines(TextOf(files, BaseFeedsPath))| ==> !Unfixable(Lines(TextOf(files, BaseFeedsPath))[k])
  {
    BlockHasMarker();
    AddedIfMissingHasMarker(TextOf(files, SnacConfPath), Marker, Block);
    var feeds := TextOf(files, BaseFeedsPath);
    var after := Configured(files);
    assert TextOf(after, BaseFeedsPath) == FeedsWithoutExtra(feeds);
    assert after[SnacConfPath].content == AddedIfMissing(TextOf(files, SnacConfPath), Marker, Block);
    if SearchSrcExtra(feeds) {
      SrcExtraAfterBlank(feeds);
    } else {
      forall k | 0 <= k < |Lines(feeds)| ensures !Unfixable(Lines(feeds)[k]) {
      }
    }
  }
}
