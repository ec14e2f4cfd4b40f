/**
 * `_USBGuardConfig`: USBGuard is installed by hand, so `configure` only
 * prints a notice; `verify` checks the rules file the daemon configuration
 * names, stopping at the first failure.
 */
module UsbGuardConfig {
  import opened Wrappers
  import opened SnacErrors
  import opened Host
  import opened ConfigFiles
  import opened Text
  import Common

  const ConfPath := "/etc/usbguard/usbguard-daemon.conf"
  const Package := "usbguard"
  const RuleFileKey := "RuleFile"
  const ManualInstall := "USBGuard configuration: Manual installation required"
  /** `0o600`. */
  const RulesMode := 0x180

  /** `configure`: the notice it prints, and only when the package is absent; nothing changes. */
  method Configure(installed: seq<string>) returns (notice: Option<string>)
    ensures notice.Some? <==> Package !in installed
    ensures notice.Some? ==> notice.value == ManualInstall
  {
    notice := None;
    if Package !in installed {
      notice := Some(ManualInstall);
    }
  }

  /** The rules file `RuleFile` names in the daemon configuration; `""` when no uncommented line sets it. */
  function RulesPath(files: map<string, FileEntry>): string {
    GetValue(TextOf(files, ConfPath), RuleFileKey)
  }

  /** Everything `verify` demands of an installed USBGuard. */
  predicate Secured(files: map<string, FileEntry>, groups: seq<Account>) {
    var rules := RulesPath(files);
    ConfPath in files && rules != "" && rules in files && |files[rules].content| > 0
    && Common.FirstNamedAs(groups, files[rules].gid, "root")
    && PermissionBits(files[rules].mode) == RulesMode
    && Common.FirstNamedAs(groups, files[rules].uid, "root")
  }

  /** The checks before the ownership lookups all pass. */
  predicate RulesPresent(files: map<string, FileEntry>) {
    ConfPath in files && RulesPath(files) != "" && RulesPath(files) in files && |files[RulesPath(files)].content| > 0
  }

  /**
   * A lookup `verify` reaches finds no group: the file's gid, or, once group
   * and mode have passed, its uid.
   */
  predicate LookupRaises(files: map<string, FileEntry>, groups: seq<Account>)
    requires RulesPresent(files)
  {
    var e := files[RulesPath(files)];
    NameOf(groups, e.gid).None?
    || (Common.FirstNamedAs(groups, e.gid, "root") && PermissionBits(e.mode) == RulesMode && NameOf(groups, e.uid).None?)
  }

  /**
   * `verify`: True when USBGuard is absent; otherwise False at the first
   * failing check, in the order configuration, RuleFile, rules file, size,
   * group, mode, owner. A gid or uid missing from the group database raises.
   */
  function Verify(installed: seq<string>, files: map<string, FileEntry>, groups: seq<Account>): (r: Result<bool, Failure>)
    ensures Package !in installed ==> r == Ok(true)
    ensures r == Ok(true) <==> Package !in installed || Secured(files, groups)
    ensures r.Err? <==> Package in installed && RulesPresent(files) && LookupRaises(files, groups)
    ensures r.Err? ==> r.error.KeyError?
  {
    if Package !in installed then Ok(true)
    else if ConfPath !in files then Ok(false)
    else
      var rules := RulesPath(files);
      if rules == "" then Ok(false)
      else if rules !in files then Ok(false)
      else if |files[rules].content| == 0 then Ok(false)
      else
        var group := Common.CheckGroupOwnership(files, groups, rules, "root");
        if group.Err? then group
        else if !group.value then Ok(false)
        else
          var perms := Common.CheckPermissions(files, rules, RulesMode);
          if !perms.value then Ok(false)
          else Common.CheckOwner(files, groups, rules, "root")
  }

  /**
   * A commented `#RuleFile=` line sets nothing: with only such a line the
   * rules path is empty and an installed USBGuard fails `verify`.
   */
  lemma CommentedRuleFileFails(installed: seq<string>, files: map<string, FileEntry>, groups: seq<Account>, path: string)
    requires Package in installed && ConfPath in files
    requires forall k :: 0 <= k < |path| ==> !IsLineBreak(path[k])
    requires files[ConfPath].content == "#" + RuleFileKey + "=" + path
    ensures Verify(installed, files, groups) == Ok(false)
  {
    var text := "#" + RuleFileKey + "=" + path;
    assert forall k :: 0 <= k < |text| ==> !IsLineBreak(text[k]) by {
      forall k | 0 <= k < |text| ensures !IsLineBreak(text[k]) {
        if k >= |text| - |path| {
          assert text[k] == path[k - (|text| - |path|)];
        }
      }
    }
    assert FirstBreak(text) == |text|;
    assert SplitLines(text) == [text];
    CommentedLineIgnored(RuleFileKey, path);
    assert FirstValue([text][1..], RuleFileKey) == "";
  }
}
