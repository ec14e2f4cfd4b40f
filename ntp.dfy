/**
 * `_NTPConfig`: installs ntp, drops every NI pool server line from
 * `/etc/ntp.conf`, points the daemon at a US military pool and restarts it.
 */
module NtpConfig {
  import opened Wrappers
  import opened Text
  import opened SnacErrors
  import opened Host
  import opened ConfigFiles
  import opened Patterns
  import Opkg

  const ConfPath := "/etc/ntp.conf"
  const Package := "ntp"
  /** The NI pool, as a pattern: each `.` matches any character but a newline. */
  const NiPool := "natinst.pool.ntp.org"
  const ServerSetting := "0.us.pool.ntp.mil iburst maxpoll 16"
  const ServerLine := "server " + ServerSetting
  const Restart := ["/etc/init.d/ntpd", "restart"]

  const MissingPackage := "MISSING: ntp not installed"
  const MissingServer := "MISSING: designated ntp server and settings not found in config file"
  const FoundNiServer := "FOUND: NI ntp server in config file"

  /** The lines `^.*natinst.pool.ntp.org.*$` matches: those holding a match of the pool pattern. */
  predicate NamesNiPool(line: string) {
    Search(line, NiPool)
  }

  /** The text with the NI pool lines emptied, when there are any. */
  function WithoutNiPool(text: string): string {
    if Search(text, NiPool) then BlankLines(text, NamesNiPool) else text
  }

  /** The text `configure` saves. The server line is appended with no newline before or after it. */
  function ConfiguredText(text: string): string {
    AddedIfMissing(WithoutNiPool(text), ServerLine, ServerLine)
  }

  function Configured(files: map<string, FileEntry>, dryRun: bool): map<string, FileEntry> {
    if dryRun then files else SavedAs(files, ConfPath, ConfiguredText(TextOf(files, ConfPath)))
  }

  /** The restart that follows a successful install outside a dry run; its exit status is ignored. */
  function RestartRuns(installOk: bool, dryRun: bool): seq<seq<string>> {
    if installOk && !dryRun then [Restart] else []
  }

  /** What `verify` accepts. */
  predicate Valid(installed: seq<string>, files: map<string, FileEntry>) {
    Package in installed
    && Search(TextOf(files, ConfPath), ServerSetting)
    && !Search(TextOf(files, ConfPath), NiPool)
  }

  /**
   * `configure`: a failed install stops everything; otherwise the file is
   * rewritten and, outside a dry run, ntpd is restarted, which fails only
   * when the init script is missing.
   */
  method Configure(fs: FileSystem, shell: Shell, opkg: Opkg.OpkgHelper, dryRun: bool) returns (r: Result<(), Failure>)
    requires Package !in opkg.installed ==> opkg.dryRun.Some?
    modifies fs, shell, opkg
    ensures opkg.dryRun == old(opkg.dryRun)
    ensures shell.ran == old(shell.ran) + Opkg.InstallRuns(old(opkg.installed), Package, false, opkg.dryRun)
      + RestartRuns(Opkg.InstallResult(shell, old(opkg.installed), Package, false, opkg.dryRun).Ok?, dryRun)
    ensures Opkg.InstallResult(shell, old(opkg.installed), Package, false, opkg.dryRun).Err? ==>
      r == Opkg.InstallResult(shell, old(opkg.installed), Package, false, opkg.dryRun)
      && opkg.installed == old(opkg.installed) && fs.files == old(fs.files)
    ensures Opkg.InstallResult(shell, old(opkg.installed), Package, false, opkg.dryRun).Ok? ==>
      opkg.installed == Opkg.WithPackage(old(opkg.installed), Package)
      && fs.files == Configured(old(fs.files), dryRun)
      && r == (if dryRun then Ok(()) else Completed(shell.Outcome(Restart, false)))
  {
    var config := new ConfigFile(fs, ConfPath);
    r := opkg.Install(Package, false, shell);
    if r.Err? {
      return;
    }
    if config.Contains(NiPool) {
      config.Update(text => BlankLines(text, NamesNiPool));
    }
    if !config.Contains(ServerLine) {
      config.Add(ServerLine);
    }
    assert config.config == ConfiguredText(TextOf(fs.files, ConfPath));
    config.Save(fs, dryRun);
    if !dryRun {
      var status := shell.Run(Restart, false);
      r := Completed(status);
    }
  }

  /** `verify`: all three checks run, and each failing one is reported. */
  method Verify(fs: FileSystem, opkg: Opkg.OpkgHelper) returns (valid: bool, errors: seq<string>)
    ensures valid <==> Valid(opkg.installed, fs.files)
    ensures valid <==> errors == []
    ensures MissingPackage in errors <==> Package !in opkg.installed
    ensures MissingServer in errors <==> !Search(TextOf(fs.files, ConfPath), ServerSetting)
    ensures FoundNiServer in errors <==> Search(TextOf(fs.files, ConfPath), NiPool)
  {
    var config := new ConfigFile(fs, ConfPath);
    valid := true;
    errors := [];
    if !opkg.IsInstalled(Package) {
      valid := false;
      errors := errors + [MissingPackage];
    }
    if !config.Contains(ServerSetting) {
      valid := false;
      errors := errors + [MissingServer];
    }
    if config.Contains(NiPool) {
      valid := false;
      errors := errors + [FoundNiServer];
    }
  }

  /** Emptying the NI pool lines leaves no match of the pool pattern anywhere. */
  lemma NoNiPoolLeft(text: string)
    ensures !Search(WithoutNiPool(text), NiPool)
  {
    if Search(text, NiPool) {
      var after := BlankLines(text, NamesNiPool);
      LinesOfBlankLines(text, NamesNiPool);
      SearchByLines(after, NiPool);
      forall k | 0 <= k < |Lines(after)| ensures !Search(Lines(after)[k], NiPool) {
      }
    }
  }

  /** A match of the server line holds a match of the setting `verify` looks for. */
  lemma ServerSettingPresent(text: string)
    ensures Search(AddedIfMissing(text, ServerLine, ServerLine), ServerSetting)
  {
    if Search(text, ServerLine) {
      var i :| 0 <= i <= |text| && MatchesAt(text, ServerLine, i);
      forall k | 0 <= k < |ServerSetting| ensures CharMatches(ServerSetting[k], text[i + 7 + k]) {
        assert ServerLine[7 + k] == ServerSetting[k];
      }
      assert MatchesAt(text, ServerSetting, i + 7);
    } else {
      assert text + ServerLine == text + "server " + ServerSetting + "";
      ContainsMiddle(text + "server ", ServerSetting, "");
      ContainsSearch(text + ServerLine, ServerSetting);
    }
  }

  /** No match of the pool pattern lies inside the server line. */
  lemma NoNiPoolInServerLine(i: int)
    ensures !MatchesAt(ServerLine, NiPool, i)
  {
    if 0 <= i && i + |NiPool| <= |ServerLine| {
      if i + 1 < 7 {
        assert ServerLine[i + 1] == "server "[i + 1];
      } else {
        assert ServerLine[i + 1] == ServerSetting[i - 6];
      }
      assert !CharMatches(NiPool[1], ServerLine[i + 1]);
    }
  }

  /** No match of the pool pattern starts in `text` and runs on into the appended server line. */
  lemma NoNiPoolAcrossJoin(text: string, i: int)
    requires |text| - |NiPool| < i < |text|
    ensures !MatchesAt(text + ServerLine, NiPool, i)
  {
    var k := |text| - i;
    assert (text + ServerLine)[i + k] == 's' && (text + ServerLine)[i + k + 1] == 'e';
    assert !(CharMatches(NiPool[k], 's') && CharMatches(NiPool[k + 1], 'e'));
  }

  /** Appending the server line to a text without a pool match creates none. */
  lemma AppendKeepsNoNiPool(text: string)
    requires !Search(text, NiPool)
    ensures !Search(text + ServerLine, NiPool)
  {
    if Search(text + ServerLine, NiPool) {
      var i :| 0 <= i <= |text + ServerLine| && MatchesAt(text + ServerLine, NiPool, i);
      if i + |NiPool| <= |text| {
        MatchFromPrefix(text, ServerLine, NiPool, i);
      } else if i >= |text| {
        MatchFromSuffix(text, ServerLine, NiPool, i);
        NoNiPoolInServerLine(i - |text|);
      } else {
        NoNiPoolAcrossJoin(text, i);
      }
    }
  }

  /** After a successful real `configure`, `verify` passes, whatever the file held before. */
  lemma ConfigureThenValid(installed: seq<string>, files: map<string, FileEntry>)
    ensures Valid(Opkg.WithPackage(installed, Package), Configured(files, false))
  {
    var text := TextOf(files, ConfPath);
    var cleaned := WithoutNiPool(text);
    NoNiPoolLeft(text);
    ServerSettingPresent(cleaned);
    if !Search(cleaned, ServerLine) {
      AppendKeepsNoNiPool(cleaned);
    }
    assert TextOf(Configured(files, false), ConfPath) == ConfiguredText(text);
  }

  /** Running `configure` twice saves the same file as running it once. */
  lemma ConfigureIdempotent(text: string)
    ensures ConfiguredText(ConfiguredText(text)) == ConfiguredText(text)
  {
    var once := ConfiguredText(text);
    NoNiPoolLeft(text);
    ServerSettingPresent(WithoutNiPool(text));
    if !Search(WithoutNiPool(text), ServerLine) {
      AppendKeepsNoNiPool(WithoutNiPool(text));
      ContainsMiddle(WithoutNiPool(text), ServerLine, "");
      assert WithoutNiPool(text) + ServerLine + "" == once;
      ContainsSearch(once, ServerLine);
    }
    assert WithoutNiPool(once) == once;
  }
}
