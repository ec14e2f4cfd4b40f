/**
 * `_AuditdConfig`: installs the audit daemon, makes sure the `adm` and `sudo`
 * groups exist, records an alert e-mail address in `/etc/audit/auditd.conf`,
 * writes the e-mail alert script and its audispd plugin entry, restricts the
 * configuration and log directory to root and those groups, and (re)starts
 * the service. `verify` checks the package, the address and the ownership and
 * mode of the configuration file and of the log directory.
 */
module AuditdConfig {
  import opened Wrappers
  import opened Text
  import opened SnacErrors
  import opened Host
  import opened ConfigFiles
  import opened Opkg
  import Common
  import Patterns

  const AuditConfPath := "/etc/audit/auditd.conf"
  const AlertScriptPath := "/etc/audit/audit_email_alert.pl"
  const PluginConfPath := "/etc/audit/plugins.d/audit_email_alert.conf"
  /** The runlevel link whose presence means the service is already enabled. */
  const RcLink := "/etc/rc2.d/S20auditd"
  const MailKey := "action_mail_acct"

  const Auditd := "auditd"
  const SmtpModule := "perl-module-net-smtp"
  const AuditPlugins := "audispd-plugins"
  const RequiredGroups := ["adm", "sudo"]

  /** 0o660, 0o770 and 0o600. */
  const ConfMode := 0x1B0
  const LogMode := 0x1F8
  const PluginMode := 0x180

  // ---------------------------------------------------------------------------
  // is_valid_email: ^[a-zA-Z0-9._%+-]+@[a-zA-Z0-9.-]+$
  // ---------------------------------------------------------------------------

  predicate IsAlnum(ch: char) {
    ('a' <= ch <= 'z') || ('A' <= ch <= 'Z') || ('0' <= ch <= '9')
  }

  /** A character of the part before the `@`. */
  predicate LocalChar(ch: char) {
    IsAlnum(ch) || ch == '.' || ch == '_' || ch == '%' || ch == '+' || ch == '-'
  }

  /** A character of the part after the `@`. */
  predicate DomainChar(ch: char) {
    IsAlnum(ch) || ch == '.' || ch == '-'
  }

  /** `t` is a non-empty local part, the `@` at index `i`, and a non-empty domain. */
  predicate AddressAt(t: string, i: int) {
    0 < i < |t| - 1 && t[i] == '@'
    && (forall k :: 0 <= k < i ==> LocalChar(t[k]))
    && (forall k :: i < k < |t| ==> DomainChar(t[k]))
  }

  /** The whole of `t` matches `[a-zA-Z0-9._%+-]+@[a-zA-Z0-9.-]+`. */
  predicate IsAddress(t: string) {
    exists i :: 0 <= i < |t| && AddressAt(t, i)
  }

  /**
   * `is_valid_email(s)`: `re.match` anchors at the start, and `$` also matches
   * just before a final newline, so one trailing `"\n"` is accepted.
   */
  predicate IsValidEmail(s: string) {
    IsAddress(s) || (|s| > 0 && s[|s| - 1] == '\n' && IsAddress(s[..|s| - 1]))
  }

  /** An address splits at its only `@` into a local part and a domain, each of the allowed characters. */
  lemma AddressParts(local: string, domain: string)
    ensures IsAddress(local + "@" + domain) <==>
      |local| > 0 && |domain| > 0
      && (forall k :: 0 <= k < |local| ==> LocalChar(local[k]))
      && (forall k :: 0 <= k < |domain| ==> DomainChar(domain[k]))
  {
    var t := local + "@" + domain;
    var n := |local|;
    assert t[n] == '@';
    assert forall k :: 0 <= k < n ==> t[k] == local[k];
    assert forall k :: n < k < |t| ==> t[k] == domain[k - n - 1];
    if IsAddress(t) {
      var i :| 0 <= i < |t| && AddressAt(t, i);
      assert !DomainChar(t[n]) && !LocalChar(t[n]);
      assert i == n;
      forall k | 0 <= k < |domain| ensures DomainChar(domain[k]) {
        assert t[k + n + 1] == domain[k];
      }
    }
    if |local| > 0 && |domain| > 0
      && (forall k :: 0 <= k < |local| ==> LocalChar(local[k]))
      && (forall k :: 0 <= k < |domain| ==> DomainChar(domain[k]))
    {
      assert AddressAt(t, n);
    }
  }

  /** No line break, blank or quote can appear in an accepted address, except the one final newline. */
  lemma ValidEmailChars(s: string)
    requires IsValidEmail(s)
    ensures forall k :: 0 <= k < |s| - 1 ==> !IsLineBreak(s[k]) && !IsSpace(s[k]) && s[k] != '\'' && s[k] != '\\'
    ensures '\n' !in s ==> IsAddress(s) && forall k :: 0 <= k < |s| ==> !IsLineBreak(s[k]) && !IsSpace(s[k])
  {
    var t := if IsAddress(s) then s else s[..|s| - 1];
    var i :| 0 <= i < |t| && AddressAt(t, i);
    assert forall k :: 0 <= k < |t| ==> LocalChar(t[k]) || t[k] == '@' || DomainChar(t[k]);
    if !IsAddress(s) {
      assert s[|s| - 1] == '\n';
    }
  }

  /**
   * The fallback `root@<hostname>` is accepted exactly when the host name is
   * non-empty and made of letters, digits, dots and hyphens: a host name with
   * an underscore, say, gives an address that is not recorded.
   */
  lemma DefaultAddress(hostname: string)
    requires '\n' !in hostname
    ensures IsValidEmail("root@" + hostname) <==>
      |hostname| > 0 && forall k :: 0 <= k < |hostname| ==> DomainChar(hostname[k])
  {
    assert "root@" + hostname == "root" + "@" + hostname;
    AddressParts("root", hostname);
    var s := "root@" + hostname;
    assert s[|s| - 1] != '\n' by {
      if |hostname| > 0 { assert s[|s| - 1] == hostname[|hostname| - 1]; }
    }
  }

  // ---------------------------------------------------------------------------
  // The address configure settles on
  // ---------------------------------------------------------------------------

  /**
   * The address `configure` goes on with. An empty `--audit-email` falls
   * back to the recorded `action_mail_acct`; when that candidate is invalid
   * and `--yes` was not given, the typed answer is taken; in every other case
   * the address becomes `root@<hostname>`, even when the candidate was valid.
   */
  function SelectEmail(given: string, recorded: string, yes: bool, typed: string, hostname: string): (r: string)
    ensures yes ==> r == "root@" + hostname
    ensures IsValidEmail(if given == "" then recorded else given) ==> r == "root@" + hostname
    ensures given != "" && !IsValidEmail(given) && !yes ==> r == typed
    ensures given == "" && !IsValidEmail(recorded) && !yes ==> r == typed
  {
    var candidate := if given == "" then recorded else given;
    if !IsValidEmail(candidate) && !yes then typed else "root@" + hostname
  }

  // ---------------------------------------------------------------------------
  // format_email_template_text
  // ---------------------------------------------------------------------------

  /** The lines of the alert script up to the statement naming the recipient. */
  const PreambleLines: seq<string> := [
    "",
    "    #!/usr/bin/perl",
    "    use strict;",
    "    use warnings;",
    "    use Net::SMTP;",
    "",
    "    # Configuration",
    "    my $smtp_server = 'smtp.yourisp.com';",
    "    my $smtp_user = 'your_email@domain.com';",
    "    my $smtp_pass = 'your_password';",
    "    my $from = 'your_email@domain.com';",
    "    "]

  /** The alert script up to the statement naming the recipient (four spaces into its line). */
  const TemplatePreamble := Join(PreambleLines, "\n")

  /** The lines of the alert script from the end of the statement naming the recipient. */
  const RestLines: seq<string> := [
    "",
    "    my $subject = 'Audit Alert';",
    "    my $body = \"A critical audit event has been triggered: $ARGV[0]\";",
    "",
    "    # Create SMTP object",
    "    my $smtp = Net::SMTP->new($smtp_server, Timeout => 60)",
    "        or die \"Could not connect to SMTP server: $!\";",
    "",
    "    # Authenticate",
    "    $smtp->auth($smtp_user, $smtp_pass)",
    "        or die \"SMTP authentication failed: $!\";",
    "",
    "    # Send email",
    "    $smtp->mail($from)",
    "        or die \"Error setting sender: $!\";",
    "    $smtp->to($to)",
    "        or die \"Error setting recipient: $!\";",
    "    $smtp->data()",
    "        or die \"Error starting data: $!\";",
    "    $smtp->datasend(\"To: $to\\n\");",
    "    $smtp->datasend(\"From: $from\\n\");",
    "    $smtp->datasend(\"Subject: $subject\\n\");",
    "    $smtp->datasend(\"\\n\");",
    "    $smtp->datasend(\"$body\\n\");",
    "    $smtp->dataend()",
    "        or die \"Error ending data: $!\";",
    "    $smtp->quit;",
    "    "]

  /** The alert script after the statement naming the recipient. */
  const TemplateRest := Join(RestLines, "\n")

  /** The Perl statement that names the recipient, in single quotes. */
  function RecipientLine(email: string): string {
    "my $to = '" + email + "';"
  }

  /** The Perl alert script with `email` as its single-quoted recipient. */
  function EmailTemplate(email: string): string {
    TemplatePreamble + RecipientLine(email) + TemplateRest
  }

  /** The script names `email` as its recipient, and the recipient read back from it is `email`. */
  lemma TemplateNamesRecipient(email: string)
    ensures Contains(EmailTemplate(email), RecipientLine(email))
    ensures RecipientOf(EmailTemplate(email)) == email
  {
    ContainsMiddle(TemplatePreamble, RecipientLine(email), TemplateRest);
    RecipientSlice(TemplatePreamble, email, TemplateRest);
  }

  /** The recipient of an alert script: what lies between the fixed text around it. */
  function RecipientOf(script: string): string {
    var from := |TemplatePreamble| + |"my $to = '"|;
    var to := |script| - |TemplateRest| - |"';"|;
    if from <= to <= |script| then script[from..to] else ""
  }

  lemma RecipientSlice(pre: string, email: string, post: string)
    ensures var r := pre + RecipientLine(email) + post;
      r[|pre| + |"my $to = '"|..|r| - |post| - |"';"|] == email
  {
    var r := pre + RecipientLine(email) + post;
    assert r == (pre + "my $to = '") + email + ("';" + post);
  }

  /** The plugin entry pointing audispd at the alert script. */
  const PluginText := "\n                active = yes\n                direction = out\n                path = /etc/audit/audit_email_alert.pl\n                type = always\n                "

  // ---------------------------------------------------------------------------
  // The action_mail_acct rewrite
  // ---------------------------------------------------------------------------

  /** A line matched by `^action_mail_acct\s*=.*$`: the key, blanks, then `=`. */
  predicate MailLine(line: string) {
    StartsWith(line, MailKey) && var rest := LStrip(line[|MailKey|..]); |rest| > 0 && rest[0] == '='
  }

  /** The configuration text after the rewrite `configure` applies for `email`. */
  function MailConfigured(text: string, email: string): string {
    if IsValidEmail(email) then Patterns.ReplaceLines(text, MailLine, MailKey + " = " + email) else text
  }

  /** `MailKey = email` is itself a matched line, so the rewrite is stable. */
  lemma MailSettingIsMailLine(email: string)
    ensures MailLine(MailKey + " = " + email)
  {
    var line := MailKey + " = " + email;
    assert line[|MailKey|..] == " " + ("= " + email);
    LStripSpaces(" ", "= " + email);
  }

  /**
   * When the first line of `auditd.conf` is an `action_mail_acct` line, the
   * value read back after the rewrite is the address written.
   */
  lemma MailRecorded(line: string, rest: string, email: string)
    requires MailLine(line) && '\n' !in line
    requires IsValidEmail(email) && '\n' !in email
    ensures GetValue(MailConfigured(line + "\n" + rest, email), MailKey) == email
    ensures IsValidEmail(GetValue(MailConfigured(line + "\n" + rest, email), MailKey))
  {
    var setting := MailKey + " = " + email;
    var after := Patterns.ReplaceLines(rest, MailLine, setting);
    assert MailConfigured(line + "\n" + rest, email) == setting + "\n" + after by {
      Patterns.ReplaceFirstLine(line, rest, MailLine, setting);
    }
    ValidEmailChars(email);
    MailKeyIsPlain();
    GetRoundTrip(MailKey, email, after);
  }

  /** The key has no blank, no `=` and no line break. */
  lemma MailKeyIsPlain()
    ensures ' ' !in MailKey && '\t' !in MailKey && '=' !in MailKey
    ensures forall k :: 0 <= k < |MailKey| ==> !IsLineBreak(MailKey[k])
  {
  }

  /**
   * A configuration with no `action_mail_acct` line at all is left without
   * one: the rewrite only replaces lines, it never adds the setting, and the
   * address check of `verify` keeps failing.
   */
  lemma NoMailSettingStaysInvalid(text: string, email: string)
    requires forall k :: 0 <= k < |Lines(text)| ==> !MailLine(Lines(text)[k])
    requires forall k :: 0 <= k < |SplitLines(text)| ==> !Keyed(SplitLines(text)[k], MailKey)
    ensures MailConfigured(text, email) == text
    ensures !IsValidEmail(GetValue(MailConfigured(text, email), MailKey))
  {
    Patterns.ReplaceNothing(text, MailLine, MailKey + " = " + email);
    FirstValueIsFirstMatch(SplitLines(text), MailKey);
    assert !IsAddress("");
  }

  // ---------------------------------------------------------------------------
  // ensure_groups_exist
  // ---------------------------------------------------------------------------

  /** Commands run, the outcome, and the group database after them. */
  datatype GroupsOutcome = GroupsOutcome(ran: seq<seq<string>>, result: Result<(), Failure>, groups: seq<Account>)

  /**
   * `ensure_groups_exist(wanted)` against the group database `existing`: each
   * group not found is created with `groupadd` (checked), which gives it the
   * id `newId` names; the first failure ends the walk.
   */
  function GroupsAdded(shell: Shell, existing: seq<Account>, wanted: seq<string>, newId: string -> int): GroupsOutcome
    decreases |wanted|
  {
    if |wanted| == 0 then GroupsOutcome([], Ok(()), existing)
    else if IdOf(existing, wanted[0]).Some? then GroupsAdded(shell, existing, wanted[1..], newId)
    else
      var cmd := ["groupadd", wanted[0]];
      var o := shell.Outcome(cmd, true);
      if o.Err? then GroupsOutcome([cmd], Err(o.error), existing)
      else
        var rest := GroupsAdded(shell, existing + [Account(wanted[0], newId(wanted[0]))], wanted[1..], newId);
        GroupsOutcome([cmd] + rest.ran, rest.result, rest.groups)
  }

  /**
   * On success every wanted group exists afterwards; the database only grows
   * at its end; and each command run is a `groupadd` of a wanted group that
   * did not exist before.
   */
  lemma {:induction false} GroupsAddedProvides(shell: Shell, existing: seq<Account>, wanted: seq<string>, newId: string -> int)
    ensures var e := GroupsAdded(shell, existing, wanted, newId);
      e.result.Ok? ==> forall g :: g in wanted ==> IdOf(e.groups, g).Some?
    ensures var e := GroupsAdded(shell, existing, wanted, newId);
      |e.groups| >= |existing| && e.groups[..|existing|] == existing
    ensures var e := GroupsAdded(shell, existing, wanted, newId);
      forall c :: c in e.ran ==> exists g :: g in wanted && IdOf(existing, g).None? && c == ["groupadd", g]
    decreases |wanted|
  {
    if |wanted| > 0 {
      var w := wanted[0];
      if IdOf(existing, w).Some? {
        GroupsAddedProvides(shell, existing, wanted[1..], newId);
        var e := GroupsAdded(shell, existing, wanted[1..], newId);
        if e.result.Ok? {
          assert IdOf(e.groups[..|existing|], w).Some?;
          IdOfPrefix(e.groups, |existing|, w);
        }
      } else if shell.Outcome(["groupadd", w], true).Ok? {
        var grown := existing + [Account(w, newId(w))];
        GroupsAddedProvides(shell, grown, wanted[1..], newId);
        var e := GroupsAdded(shell, grown, wanted[1..], newId);
        assert e.groups[..|existing|] == e.groups[..|grown|][..|existing|];
        if e.result.Ok? {
          assert grown[|existing|] == Account(w, newId(w));
          assert IdOf(grown, w).Some?;
          assert IdOf(e.groups[..|grown|], w).Some?;
          IdOfPrefix(e.groups, |grown|, w);
        }
        forall c | c in e.ran ensures exists g :: g in wanted && IdOf(existing, g).None? && c == ["groupadd", g] {
          var g :| g in wanted[1..] && IdOf(grown, g).None? && c == ["groupadd", g];
          assert forall k :: 0 <= k < |existing| ==> grown[k] == existing[k];
          assert g in wanted;
        }
      }
    }
  }

  /** A name found in a prefix of the database is found in the whole of it. */
  lemma IdOfPrefix(entries: seq<Account>, n: nat, name: string)
    requires n <= |entries| && IdOf(entries[..n], name).Some?
    ensures IdOf(entries, name).Some?
  {
    var k :| 0 <= k < n && entries[..n][k].name == name;
    assert entries[k].name == name;
  }

  /** A group `groupadd` created is not looked for again, and the walk goes on after it. */
  lemma GroupCreated(shell: Shell, history: seq<seq<string>>, existing: seq<Account>, wanted: seq<string>,
                     newId: string -> int)
    requires |wanted| >= 1 && IdOf(existing, wanted[0]).None?
    requires shell.Outcome(["groupadd", wanted[0]], true).Ok?
    ensures var e := GroupsAdded(shell, existing, wanted, newId);
      var rest := GroupsAdded(shell, existing + [Account(wanted[0], newId(wanted[0]))], wanted[1..], newId);
      history + e.ran == (history + [["groupadd", wanted[0]]]) + rest.ran
      && e.result == rest.result && e.groups == rest.groups
  {
    var rest := GroupsAdded(shell, existing + [Account(wanted[0], newId(wanted[0]))], wanted[1..], newId);
    assert GroupsAdded(shell, existing, wanted, newId).ran == [["groupadd", wanted[0]]] + rest.ran;
    assert history + ([["groupadd", wanted[0]]] + rest.ran) == (history + [["groupadd", wanted[0]]]) + rest.ran;
  }

  /** `ensure_groups_exist(groups)`: a `groupadd` for each group `getgrnam` does not find. */
  method EnsureGroupsExist(groups: seq<string>, accounts: Accounts, shell: Shell, newId: string -> int)
    returns (r: Result<(), Failure>)
    modifies accounts, shell
    ensures var e := GroupsAdded(shell, old(accounts.groups), groups, newId);
      shell.ran == old(shell.ran) + e.ran && r == e.result && accounts.groups == e.groups
    ensures accounts.users == old(accounts.users)
  {
    ghost var whole := GroupsAdded(shell, accounts.groups, groups, newId);
    var i := 0;
    while i < |groups|
      invariant 0 <= i <= |groups|
      invariant accounts.users == old(accounts.users)
      invariant var e := GroupsAdded(shell, accounts.groups, groups[i..], newId);
        old(shell.ran) + whole.ran == shell.ran + e.ran && whole.result == e.result && whole.groups == e.groups
    {
      var g := groups[i];
      var todo := groups[i..];
      assert todo[0] == g && todo[1..] == groups[i + 1..];
      var found := IdOf(accounts.groups, g);
      if found.None? {
        ghost var before := shell.ran;
        var status := shell.Run(["groupadd", g], true);
        if status.Err? {
          return Err(status.error);
        }
        GroupCreated(shell, before, accounts.groups, todo, newId);
        accounts.AddGroup(g, newId(g));
      }
      i := i + 1;
    }
    return Ok(());
  }

  // ---------------------------------------------------------------------------
  // configure
  // ---------------------------------------------------------------------------

  /** The address the step settles on for the files it started from. */
  function ChosenEmail(files: map<string, FileEntry>, given: string, yes: bool, typed: string, hostname: string): string {
    SelectEmail(given, GetValue(TextOf(files, AuditConfPath), MailKey), yes, typed, hostname)
  }

  /** The commands that enable and start the service and restrict the log directory. */
  function ServiceCommands(enabled: bool, logPath: string): (cmds: seq<seq<string>>)
    ensures ["/etc/init.d/auditd", "restart"] in cmds
    ensures ["update-rc.d", "auditd", "defaults"] in cmds <==> !enabled
    ensures forall c :: c in cmds ==> |c| >= 1
  {
    (if enabled then [] else [["update-rc.d", "auditd", "defaults"]])
    + [["/etc/init.d/auditd", "restart"],
       ["chown", "-R", "root:adm", logPath],
       ["chmod", "-R", "770", logPath],
       ["setfacl", "-d", "-m", "g:adm:rwx", logPath],
       ["setfacl", "-d", "-m", "o::0", logPath]]
  }

  /** The last commands run are those that start the service. */
  predicate EndsWithService(ran: seq<seq<string>>, enabled: bool, logPath: string) {
    var cmds := ServiceCommands(enabled, logPath);
    |cmds| <= |ran| && ran[|ran| - |cmds|..] == cmds
  }

  /** Enables and restarts the service, then hands the log directory to root and `adm`. */
  method StartService(fs: FileSystem, shell: Shell, logPath: string) returns (r: Result<(), Failure>)
    modifies shell
    ensures var cmds := ServiceCommands(RcLink in fs.files, logPath);
      shell.ran == old(shell.ran) + CheckedRuns(shell, cmds) && r == CheckedResult(shell, cmds)
    ensures r.Ok? ==> EndsWithService(shell.ran, RcLink in fs.files, logPath)
  {
    var cmds := ServiceCommands(RcLink in fs.files, logPath);
    r := RunChecked(shell, cmds);
    if r.Ok? {
      assert shell.ran == old(shell.ran) + cmds;
      assert shell.ran[|shell.ran| - |cmds|..] == cmds;
    }
  }

  /** The commands that hand the alert script to root:sudo with mode 0o700. */
  const ScriptPermissionCommands := [["chown", "root:sudo", AlertScriptPath], ["chmod", "700", AlertScriptPath]]

  /** The file system after the alert script is written where there was none. */
  function ScriptWritten(files: map<string, FileEntry>, email: string): (r: map<string, FileEntry>)
    ensures AlertScriptPath in r && r.Keys == files.Keys + {AlertScriptPath}
    ensures AlertScriptPath !in files ==> r[AlertScriptPath].content == EmailTemplate(email)
    ensures forall p :: p in files && (p != AlertScriptPath || AlertScriptPath in files) ==> r[p] == files[p]
  {
    if AlertScriptPath in files then files
    else files[AlertScriptPath := FileEntry(EmailTemplate(email), NewFileMode, 0, 0)]
  }

  /**
   * Writes the alert script when it does not exist, then `chown`s and
   * `chmod`s it through the shell; the write happens even in a dry run.
   */
  method WriteAlertScript(fs: FileSystem, shell: Shell, email: string) returns (r: Result<(), Failure>)
    modifies fs, shell
    ensures fs.files == ScriptWritten(old(fs.files), email)
    ensures AlertScriptPath in old(fs.files) ==> shell.ran == old(shell.ran) && r == Ok(())
    ensures AlertScriptPath !in old(fs.files) ==> HandedOver(shell, old(shell.ran), r)
  {
    if AlertScriptPath in fs.files {
      return Ok(());
    }
    CreateAlertScript(fs, email);
    r := HandOverScript(shell);
  }

  /**
   * The shell ran the `chown` and `chmod` of the alert script after `before`,
   * stopping at the first that fails, and `r` is that outcome.
   */
  ghost predicate HandedOver(shell: Shell, before: seq<seq<string>>, r: Result<(), Failure>)
    reads shell
  {
    shell.ran == before + CheckedRuns(shell, ScriptPermissionCommands)
    && r == CheckedResult(shell, ScriptPermissionCommands)
  }

  /** Gives the alert script to root:sudo with mode 0o700, stopping at the first command that fails. */
  method HandOverScript(shell: Shell) returns (r: Result<(), Failure>)
    modifies shell
    ensures HandedOver(shell, old(shell.ran), r)
  {
    r := RunChecked(shell, ScriptPermissionCommands);
  }

  /** `open(path, "w").write(script)` for the alert script. */
  method CreateAlertScript(fs: FileSystem, email: string)
    requires AlertScriptPath !in fs.files
    modifies fs
    ensures fs.files == ScriptWritten(old(fs.files), email)
  {
    fs.WriteText(AlertScriptPath, EmailTemplate(email));
  }

  /**
   * The file system after the plugin entry is written where there was none:
   * a fresh file, given to `owner` with mode 0o600 unless `owner` is None.
   */
  function PluginWritten(files: map<string, FileEntry>, owner: Option<(int, int)>): (r: map<string, FileEntry>)
    ensures PluginConfPath in r && r.Keys == files.Keys + {PluginConfPath}
    ensures PluginConfPath !in files ==> r[PluginConfPath].content == PluginText
    ensures PluginConfPath !in files && owner.Some? ==>
      PermissionBits(r[PluginConfPath].mode) == PluginMode
      && r[PluginConfPath].uid == owner.value.0 && r[PluginConfPath].gid == owner.value.1
    ensures forall p :: p in files && (p != PluginConfPath || PluginConfPath in files) ==> r[p] == files[p]
  {
    if PluginConfPath in files then files
    else if owner.None? then files[PluginConfPath := FileEntry(PluginText, NewFileMode, 0, 0)]
    else files[PluginConfPath := FileEntry(PluginText, Chmodded(NewFileMode, PluginMode), owner.value.0, owner.value.1)]
  }

  /** Root's uid and the `sudo` group's gid, when both are known. */
  function RootSudo(accounts: Accounts): Option<(int, int)>
    reads accounts
  {
    var u := IdOf(accounts.users, "root");
    var g := IdOf(accounts.groups, "sudo");
    if u.Some? && g.Some? then Some((u.value, g.value)) else None
  }

  /**
   * Writes the plugin entry when it does not exist; its owner and mode are
   * applied by `save`, so only in a real run, and an unknown `root` or `sudo`
   * raises after the text is already on disk.
   */
  method WritePluginEntry(fs: FileSystem, accounts: Accounts, dryRun: bool) returns (r: Result<(), Failure>)
    modifies fs
    ensures PluginConfPath in old(fs.files) ==> fs.files == old(fs.files) && r == Ok(())
    ensures PluginConfPath !in old(fs.files) ==> (r.Ok? <==> RootSudo(accounts).Some?)
    ensures r.Err? ==> r.error == KeyError(if IdOf(accounts.users, "root").None? then "root" else "sudo")
    ensures fs.files == PluginWritten(old(fs.files), if r.Ok? && !dryRun then RootSudo(accounts) else None)
  {
    if PluginConfPath in fs.files {
      return Ok(());
    }
    fs.WriteText(PluginConfPath, PluginText);
    var entry := new ConfigFile(fs, PluginConfPath);
    r := entry.Chown(accounts, "root", "sudo");
    if r.Err? {
      return;
    }
    entry.Chmod(PluginMode);
    entry.Save(fs, dryRun);
  }

  /**
   * For a valid address: installs the SMTP module and the audispd plugins,
   * then writes the alert script and the plugin entry where they are missing.
   */
  method SetUpAlerts(fs: FileSystem, shell: Shell, accounts: Accounts, opkg: OpkgHelper, email: string, dryRun: bool)
    returns (r: Result<(), Failure>)
    requires SmtpModule !in opkg.installed || AuditPlugins !in opkg.installed ==> opkg.dryRun.Some?
    modifies fs, shell, opkg
    ensures opkg.dryRun == old(opkg.dryRun)
    ensures forall p :: p in old(opkg.installed) ==> p in opkg.installed
    ensures r.Ok? ==> opkg.installed == WithPackage(WithPackage(old(opkg.installed), SmtpModule), AuditPlugins)
    ensures r.Ok? ==> fs.files == PluginWritten(ScriptWritten(old(fs.files), email), if dryRun then None else RootSudo(accounts))
    ensures forall p :: p != AlertScriptPath && p != PluginConfPath ==>
      (p in fs.files <==> p in old(fs.files)) && (p in fs.files ==> fs.files[p] == old(fs.files)[p])
  {
    var smtp := opkg.Install(SmtpModule, false, shell);
    if smtp.Err? {
      return Err(smtp.error);
    }
    var plugins := opkg.Install(AuditPlugins, false, shell);
    if plugins.Err? {
      return Err(plugins.error);
    }
    r := WriteAlertScript(fs, shell, email);
    if r.Err? {
      return;
    }
    ghost var scripted := fs.files;
    r := WritePluginEntry(fs, accounts, dryRun);
    assert scripted == ScriptWritten(old(fs.files), email);
  }

  /**
   * For a valid address: sets `action_mail_acct` in the loaded text, then
   * sets up the alerts. An invalid address leaves everything as it was.
   */
  method RecordAddress(fs: FileSystem, shell: Shell, accounts: Accounts, opkg: OpkgHelper, conf: ConfigFile,
                       email: string, dryRun: bool)
    returns (r: Result<(), Failure>)
    requires SmtpModule !in opkg.installed || AuditPlugins !in opkg.installed ==> opkg.dryRun.Some?
    modifies fs, shell, opkg, conf
    ensures conf.config == MailConfigured(old(conf.config), email)
    ensures conf.mode == old(conf.mode) && conf.uid == old(conf.uid) && conf.gid == old(conf.gid)
    ensures opkg.dryRun == old(opkg.dryRun)
    ensures forall p :: p in old(opkg.installed) ==> p in opkg.installed
    ensures !IsValidEmail(email) ==>
      r.Ok? && opkg.installed == old(opkg.installed) && fs.files == old(fs.files) && shell.ran == old(shell.ran)
    ensures IsValidEmail(email) && r.Ok? ==>
      opkg.installed == WithPackage(WithPackage(old(opkg.installed), SmtpModule), AuditPlugins)
      && fs.files == PluginWritten(ScriptWritten(old(fs.files), email), if dryRun then None else RootSudo(accounts))
    ensures forall p :: p != AlertScriptPath && p != PluginConfPath ==>
      (p in fs.files <==> p in old(fs.files)) && (p in fs.files ==> fs.files[p] == old(fs.files)[p])
  {
    if !IsValidEmail(email) {
      return Ok(());
    }
    conf.Update(text => Patterns.ReplaceLines(text, MailLine, MailKey + " = " + email));
    r := SetUpAlerts(fs, shell, accounts, opkg, email, dryRun);
  }

  /**
   * Hands the configuration file to root and `sudo` with mode 0o660 and
   * saves it; an unknown `root` or `sudo` raises before anything is written.
   */
  method SaveConfiguration(fs: FileSystem, accounts: Accounts, conf: ConfigFile, dryRun: bool)
    returns (r: Result<(), Failure>)
    modifies fs, conf
    ensures r.Ok? <==> RootSudo(accounts).Some?
    ensures r.Err? ==> r.error == KeyError(if IdOf(accounts.users, "root").None? then "root" else "sudo")
    ensures r.Err? || dryRun ==> fs.files == old(fs.files)
    ensures r.Ok? && !dryRun ==> conf.path in fs.files && fs.files[conf.path].content == old(conf.config)
    ensures r.Ok? && !dryRun ==>
      PermissionBits(fs.files[conf.path].mode) == ConfMode
      && fs.files[conf.path].uid == RootSudo(accounts).value.0
      && fs.files[conf.path].gid == RootSudo(accounts).value.1
    ensures forall p :: p != conf.path ==>
      (p in fs.files <==> p in old(fs.files)) && (p in fs.files ==> fs.files[p] == old(fs.files)[p])
  {
    r := conf.Chown(accounts, "root", "sudo");
    if r.Err? {
      return;
    }
    conf.Chmod(ConfMode);
    conf.Save(fs, dryRun);
  }

  /** Records the address, then saves the configuration file. */
  method RecordAndSave(fs: FileSystem, shell: Shell, accounts: Accounts, opkg: OpkgHelper, conf: ConfigFile,
                       email: string, dryRun: bool)
    returns (r: Result<(), Failure>)
    requires conf.path == AuditConfPath
    requires SmtpModule !in opkg.installed || AuditPlugins !in opkg.installed ==> opkg.dryRun.Some?
    modifies fs, shell, opkg, conf
    ensures opkg.dryRun == old(opkg.dryRun)
    ensures forall p :: p in old(opkg.installed) ==> p in opkg.installed
    ensures r.Ok? ==> RootSudo(accounts).Some?
    ensures r.Ok? && IsValidEmail(email) ==> SmtpModule in opkg.installed && AuditPlugins in opkg.installed
    ensures r.Ok? && !dryRun ==>
      AuditConfPath in fs.files && fs.files[AuditConfPath].content == MailConfigured(old(conf.config), email)
    ensures r.Ok? && !dryRun ==>
      PermissionBits(fs.files[AuditConfPath].mode) == ConfMode
      && fs.files[AuditConfPath].uid == RootSudo(accounts).value.0
      && fs.files[AuditConfPath].gid == RootSudo(accounts).value.1
    ensures dryRun ==> (AuditConfPath in fs.files <==> AuditConfPath in old(fs.files))
    ensures dryRun && AuditConfPath in old(fs.files) ==> fs.files[AuditConfPath] == old(fs.files)[AuditConfPath]
    ensures r.Ok? && IsValidEmail(email) ==>
      AlertScriptPath in fs.files && fs.files[AlertScriptPath] == ScriptWritten(old(fs.files), email)[AlertScriptPath]
    ensures forall p :: p != AuditConfPath && p != AlertScriptPath && p != PluginConfPath ==>
      (p in fs.files <==> p in old(fs.files)) && (p in fs.files ==> fs.files[p] == old(fs.files)[p])
  {
    r := RecordAddress(fs, shell, accounts, opkg, conf, email, dryRun);
    if r.Err? {
      return;
    }
    r := SaveConfiguration(fs, accounts, conf, dryRun);
  }

  /**
   * The part of `configure` after the address is chosen: records it, saves
   * the configuration file, and starts the service.
   */
  method ApplyAddress(fs: FileSystem, shell: Shell, accounts: Accounts, opkg: OpkgHelper, conf: ConfigFile,
                      email: string, dryRun: bool, logPath: string)
    returns (r: Result<(), Failure>)
    requires conf.path == AuditConfPath
    requires SmtpModule !in opkg.installed || AuditPlugins !in opkg.installed ==> opkg.dryRun.Some?
    modifies fs, shell, opkg, conf
    ensures opkg.dryRun == old(opkg.dryRun)
    ensures forall p :: p in old(opkg.installed) ==> p in opkg.installed
    ensures r.Ok? ==> RootSudo(accounts).Some?
    ensures r.Ok? && IsValidEmail(email) ==> SmtpModule in opkg.installed && AuditPlugins in opkg.installed
    ensures r.Ok? && !dryRun ==>
      AuditConfPath in fs.files && fs.files[AuditConfPath].content == MailConfigured(old(conf.config), email)
    ensures r.Ok? && !dryRun ==>
      PermissionBits(fs.files[AuditConfPath].mode) == ConfMode
      && fs.files[AuditConfPath].uid == RootSudo(accounts).value.0
      && fs.files[AuditConfPath].gid == RootSudo(accounts).value.1
    ensures dryRun ==> (AuditConfPath in fs.files <==> AuditConfPath in old(fs.files))
    ensures dryRun && AuditConfPath in old(fs.files) ==> fs.files[AuditConfPath] == old(fs.files)[AuditConfPath]
    ensures r.Ok? && IsValidEmail(email) ==>
      AlertScriptPath in fs.files && fs.files[AlertScriptPath] == ScriptWritten(old(fs.files), email)[AlertScriptPath]
    ensures r.Ok? ==> EndsWithService(shell.ran, RcLink in old(fs.files), logPath)
    ensures forall p :: p != AuditConfPath && p != AlertScriptPath && p != PluginConfPath ==>
      (p in fs.files <==> p in old(fs.files)) && (p in fs.files ==> fs.files[p] == old(fs.files)[p])
  {
    r := RecordAndSave(fs, shell, accounts, opkg, conf, email, dryRun);
    if r.Err? {
      return;
    }
    assert RcLink in fs.files <==> RcLink in old(fs.files);
    r := StartService(fs, shell, logPath);
  }

  /**
   * `configure`. `given` is `args.audit_email`, None when the arguments
   * carry no such attribute; `typed` is the answer to the prompt and
   * `hostname` the machine's name; groups created get the ids `newId` names.
   */
  method Configure(fs: FileSystem, shell: Shell, accounts: Accounts, opkg: OpkgHelper,
                   given: Option<string>, yes: bool, dryRun: bool, typed: string, hostname: string,
                   newId: string -> int, logPath: string)
    returns (r: Result<(), Failure>)
    requires Auditd !in opkg.installed || SmtpModule !in opkg.installed || AuditPlugins !in opkg.installed ==> opkg.dryRun.Some?
    modifies fs, shell, accounts, opkg
    ensures r.Ok? ==> given.Some? && Auditd in opkg.installed
    ensures r.Ok? ==> forall g :: g in RequiredGroups ==> IdOf(accounts.groups, g).Some?
    ensures r.Ok? ==> accounts.users == old(accounts.users) && IdOf(accounts.users, "root").Some?
    ensures r.Ok? && IsValidEmail(ChosenEmail(old(fs.files), given.value, yes, typed, hostname)) ==>
      SmtpModule in opkg.installed && AuditPlugins in opkg.installed
    ensures r.Ok? && !dryRun ==> AuditConfPath in fs.files
    ensures r.Ok? && !dryRun ==>
      fs.files[AuditConfPath].content == MailConfigured(TextOf(old(fs.files), AuditConfPath), ChosenEmail(old(fs.files), given.value, yes, typed, hostname))
    ensures r.Ok? && !dryRun ==> PermissionBits(fs.files[AuditConfPath].mode) == ConfMode
    ensures r.Ok? && !dryRun ==> Some(fs.files[AuditConfPath].uid) == IdOf(accounts.users, "root")
    ensures r.Ok? && !dryRun ==> Some(fs.files[AuditConfPath].gid) == IdOf(accounts.groups, "sudo")
    ensures dryRun ==> (AuditConfPath in fs.files <==> AuditConfPath in old(fs.files))
    ensures dryRun && AuditConfPath in old(fs.files) ==> fs.files[AuditConfPath] == old(fs.files)[AuditConfPath]
    ensures r.Ok? && IsValidEmail(ChosenEmail(old(fs.files), given.value, yes, typed, hostname)) ==>
      AlertScriptPath in fs.files
      && fs.files[AlertScriptPath] == ScriptWritten(old(fs.files), ChosenEmail(old(fs.files), given.value, yes, typed, hostname))[AlertScriptPath]
    ensures r.Ok? ==> EndsWithService(shell.ran, RcLink in old(fs.files), logPath)
    ensures forall p :: p != AuditConfPath && p != AlertScriptPath && p != PluginConfPath ==>
      (p in fs.files <==> p in old(fs.files)) && (p in fs.files ==> fs.files[p] == old(fs.files)[p])
  {
    var conf := new ConfigFile(fs, AuditConfPath);
    ghost var files0 := fs.files;
    var installed := opkg.Install(Auditd, false, shell);
    if installed.Err? {
      return Err(installed.error);
    }
    var grouped := EnsureGroupsExist(RequiredGroups, accounts, shell, newId);
    if grouped.Err? {
      return Err(grouped.error);
    }
    GroupsAddedProvides(shell, old(accounts.groups), RequiredGroups, newId);
    if given.None? {
      return Err(AttributeError("audit_email"));
    }
    var email := SelectEmail(given.value, conf.Get(MailKey), yes, typed, hostname);
    assert email == ChosenEmail(files0, given.value, yes, typed, hostname);
    assert conf.config == TextOf(files0, AuditConfPath);
    r := ApplyAddress(fs, shell, accounts, opkg, conf, email, dryRun, logPath);
  }

  // ---------------------------------------------------------------------------
  // verify
  // ---------------------------------------------------------------------------

  /** The checks `verify` applies, stated on the files and group database directly. */
  predicate Valid(installed: seq<string>, files: map<string, FileEntry>, groups: seq<Account>, logPath: string)
    requires AuditConfPath in files && logPath in files
  {
    Auditd in installed
    && IsValidEmail(GetValue(files[AuditConfPath].content, MailKey))
    && Common.FirstNamedAs(groups, files[AuditConfPath].gid, "sudo")
    && PermissionBits(files[AuditConfPath].mode) == ConfMode
    && Common.FirstNamedAs(groups, files[AuditConfPath].uid, "root")
    && Common.FirstNamedAs(groups, files[logPath].gid, "adm")
    && PermissionBits(files[logPath].mode) == LogMode
    && Common.FirstNamedAs(groups, files[logPath].uid, "root")
  }

  /** The stat and group lookups of `verify` that raise instead of answering. */
  predicate Raises(files: map<string, FileEntry>, groups: seq<Account>, logPath: string) {
    AuditConfPath !in files || logPath !in files
    || NameOf(groups, files[AuditConfPath].gid).None? || NameOf(groups, files[AuditConfPath].uid).None?
    || NameOf(groups, files[logPath].gid).None? || NameOf(groups, files[logPath].uid).None?
  }

  /**
   * `verify`: every check runs, in order; a missing configuration file or
   * log directory, or an id the group database does not know, raises.
   */
  function Verify(installed: seq<string>, files: map<string, FileEntry>, groups: seq<Account>, logPath: string)
    : (r: Result<bool, Failure>)
    ensures AuditConfPath !in files ==> r == Err(Common.NoSuchFile(AuditConfPath))
    ensures r.Err? <==> Raises(files, groups, logPath)
    ensures r.Ok? ==> (r.value <==> Valid(installed, files, groups, logPath))
  {
    var address := AuditConfPath in files && IsValidEmail(GetValue(files[AuditConfPath].content, MailKey));
    var confGroup := Common.CheckGroupOwnership(files, groups, AuditConfPath, "sudo");
    if confGroup.Err? then Err(confGroup.error)
    else
      var confMode := Common.CheckPermissions(files, AuditConfPath, ConfMode);
      var confOwner := Common.CheckOwner(files, groups, AuditConfPath, "root");
      if confOwner.Err? then Err(confOwner.error)
      else
        var logGroup := Common.CheckGroupOwnership(files, groups, logPath, "adm");
        if logGroup.Err? then Err(logGroup.error)
        else
          var logMode := Common.CheckPermissions(files, logPath, LogMode);
          var logOwner := Common.CheckOwner(files, groups, logPath, "root");
          if logOwner.Err? then Err(logOwner.error)
          else
            Ok(Auditd in installed && address && confGroup.value && confMode.value && confOwner.value
               && logGroup.value && logMode.value && logOwner.value)
  }
}
