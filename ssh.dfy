/**
 * `_SshConfig`: only checks. `configure` does nothing; `verify` looks for the
 * keep-alive settings of sshd and the shell idle timeout.
 */
module SshConfig {
  import opened Host
  import opened ConfigFiles
  import opened Patterns

  const SshdPath := "/etc/ssh/sshd_config"
  const TmoutPath := "/etc/profile.d/tmout.sh"
  const IntervalSetting := "ClientAliveInterval 15"
  const CountMaxSetting := "ClientAliveCountMax 4"
  const TmoutSetting := "TMOUT=600"

  const MissingSshd := "MISSING: " + SshdPath + " not found"
  const MissingInterval := "MISSING: expected ClientAliveInterval value"
  const MissingCountMax := "MISSING: expected ClientAliveCountMax value"
  const MissingTmout := "MISSING: " + TmoutPath + " not found"
  const MissingTmoutValue := "MISSING: expected TMOUT value"

  /** What `verify` accepts. */
  predicate Valid(files: map<string, FileEntry>) {
    SshdPath in files && Search(files[SshdPath].content, IntervalSetting)
    && Search(files[SshdPath].content, CountMaxSetting)
    && TmoutPath in files && Search(files[TmoutPath].content, TmoutSetting)
  }

  /**
   * `verify`: two elif chains. For sshd only the first failing check of
   * "exists, interval, count" is reported; tmout.sh is checked whatever sshd
   * gave.
   */
  method Verify(fs: FileSystem) returns (valid: bool, errors: seq<string>)
    ensures valid <==> Valid(fs.files)
    ensures valid <==> errors == []
    ensures |errors| <= 2
    ensures MissingSshd in errors <==> SshdPath !in fs.files
    ensures MissingInterval in errors <==> SshdPath in fs.files && !Search(fs.files[SshdPath].content, IntervalSetting)
    ensures MissingCountMax in errors <==>
      SshdPath in fs.files && Search(fs.files[SshdPath].content, IntervalSetting)
      && !Search(fs.files[SshdPath].content, CountMaxSetting)
    ensures MissingTmout in errors <==> TmoutPath !in fs.files
    ensures MissingTmoutValue in errors <==> TmoutPath in fs.files && !Search(fs.files[TmoutPath].content, TmoutSetting)
  {
    var sshd := new ConfigFile(fs, SshdPath);
    var tmout := new ConfigFile(fs, TmoutPath);
    valid := true;
    errors := [];
    if !sshd.Exists(fs) {
      valid := false;
      errors := errors + [MissingSshd];
    } else if !sshd.Contains(IntervalSetting) {
      valid := false;
      errors := errors + [MissingInterval];
    } else if !sshd.Contains(CountMaxSetting) {
      valid := false;
      errors := errors + [MissingCountMax];
    }
    if !tmout.Exists(fs) {
      valid := false;
      errors := errors + [MissingTmout];
    } else if !tmout.Contains(TmoutSetting) {
      valid := false;
      errors := errors + [MissingTmoutValue];
    }
  }
}
