# nilrt-snac in Dafny

nilrt-snac hardens an NI Linux Real-Time system into its SNAC ("Secure
Network Access Configuration") form. The `nilrt-snac` command has two
subcommands:

- `configure` asks for consent, checks its prerequisites, then runs every
  configuration step in a fixed order. A failing step stops the run.
- `verify` runs every step's check, keeps going after a failure, and exits
  with a verification-failure code when any check failed.

Each step is one module of this project. Each installs or removes opkg
packages, edits configuration files, or runs system commands. Its `verify`
decides, from the same state, whether the hardening is in place.

What is modelled:

- **Host** (`host.dfy`): the machine the steps act on.
  - A `FileSystem` class holds text, mode and owner per path.
  - A `Shell` class records every command line it runs; the exit codes come
    from an oracle.
- **Two opkg helpers** (`opkg.dfy`, `opkg_legacy.dfy`): `nilrt_snac/opkg.py`
  and `nilrt_snac/OpkgHelper.py`.
  - Each is a class whose list of installed packages is parsed from
    `opkg list-installed`.
  - `install` appends to the list and `remove` drops from it, in a dry run
    too.
  - The commands run only outside a dry run.
- **The configuration-file buffer** (`config_file.dfy`): `_ConfigFile`, a
  class with text, mode, uid and gid.
  - It supports `add`, `update` (on line-anchored patterns), `get`,
    `contains`, `contains_exact`, `chmod`, `chown` and `save`.
  - `patterns.dfy` gives the searches and substitutions it performs.
  - `text.dfy` gives the string operations that Python's `str` provides.
- **The configuration steps**, one module each: auditd, ClamAV, the
  firewall, NI Auth, NTP, opkg, SSH, sudo, tmux, USBGuard, Wi-Fi, X11, the
  graphical UI, faillock, the System API and cryptsetup.
- **Logging** (`logging.dfy`): `nilrt_snac/_logging.py`.
  - `_TeeStream` copies console output into a log file. Failures to write
    the log are reported and swallowed; console failures propagate.
  - The log session redirects `sys.stdout`, `sys.stderr` and every logging
    stream handler into tees. It writes a header, runs its body, writes a
    footer, then restores everything.
  - Setup failures map to their exit codes.
- **The command line** (`cli.dfy`): `nilrt_snac/__main__.py`. Each step's
  outcome is an input; the model gives the order of the steps, the loops,
  and the choice of exit code.
- **Two test fixtures**:
  - `gen_ula.dfy`: the Unique Local IPv6 address generator of
    `tests/system/gen_ula.py`. It covers the Modified EUI-64 interface
    identifier of Appendix A of RFC 4291, the address layout of section 3.1
    of RFC 4193, the NTP timestamp, and `--network` mode.
  - `wireguard.dfy`: the WireGuard fixture of
    `tests/system/wireguard_fixture/wireguard.py`. It covers the wg-quick
    configuration text, the `wg set` argument list, shell quoting, reading
    back the peer list, and the platform guess.

Where the code does something other than what its documentation or its
tests suggest, the model follows the code:

- `_TeeStream` reports every failed write to the log, not only the first.
- An auditd `verify` without `/etc/audit/auditd.conf` raises from its
  ownership check rather than returning False.
- With no virus signatures present, the ClamAV `verify` only warns. An
  integration test expects False there.
- The ClamAV step is not in the list of steps `configure` and `verify` run.
  Its constructor passes an argument that the base class does not take.
  The model treats it as constructed.
- The NI Auth `configure` installs the conflicts package from its `.ipk`
  path, so the helper lists the path rather than the package name. The
  in-memory `verify` then still reports `nilrt-snac-conflicts` missing
  (`NiAuthConfig.ConflictsStayMissing`).
- The graphical step's `verify` checks two packages that its `configure`
  never removes (`GraphicalConfig.LeftoversStayForbidden`).
- The opkg step's substitution is anchored at `src`, but its check is
  unanchored. A base-feed line that names an extra feed without starting
  with `src` survives `configure` and fails `verify`
  (`OpkgConfig.ConfigureThenValid`).
- The auditd step replaces a valid candidate address, or any candidate under
  `--yes`, with `root@<hostname>`. Otherwise the address typed at the prompt
  is used.
  It adds no setting when there is no `action_mail_acct` line. Its owner
  check resolves the owner uid through the group database.
- If the body of a log session raises `OSError`, the session converts it
  like a setup failure. If writing the footer fails, the log file is left
  unclosed.

- The firewall `verify` parses the `pidof firewalld` output as a single
  integer. Two running daemons are therefore reported as none
  (`FirewallConfig.TwoPidsRejected`).

## Model

| member | source | states |
|---|---|---|
| Text.Find | nilrt_snac/opkg.py:23-24 | the first occurrence of the separator, or -1 exactly when there is none |
| Text.IndexOf | nilrt_snac/_configs/_config_file.py:110 | the position of the first occurrence of the character, or the length when it does not occur |
| Text.SplitPiecesLackSeparator | nilrt_snac/_common.py:44 | no piece of `str.split(c)` contains `c` |
| Text.JoinSplit | nilrt_snac/opkg.py:22 | joining the pieces of `str.split(c)` with `c` gives back the text |
| Text.SplitJoin | nilrt_snac/opkg.py:22 | splitting pieces joined by `c`, none containing `c`, gives back the pieces |
| Text.NoSeparatorSplit | nilrt_snac/_common.py:44 | a text without the separator splits into itself alone |
| Text.SplitAroundSeparator | nilrt_snac/_common.py:44 | the text before the first separator is the first piece, and the rest splits on its own |
| Text.SplitLines | nilrt_snac/_configs/_config_file.py:109 | no line of `str.splitlines` contains a line break |
| Text.SplitLinesFirst | nilrt_snac/_configs/_config_file.py:109 | a break-free first line followed by a newline is the first of the lines |
| Text.LStrip | nilrt_snac/_common.py:44 | a suffix of the text whose removed prefix is whitespace and which does not start with whitespace |
| Text.RStrip | nilrt_snac/_common.py:44 | a prefix of the text whose removed suffix is whitespace and which does not end with whitespace |
| Text.Universal | nilrt_snac/_common.py:40-41 | the text a text-mode read returns: no `\r` remains, a text without `\r` is unchanged, and it is never longer |
| Text.UniversalPrefix | nilrt_snac/_common.py:40-41 | a prefix without `\r` passes through a text-mode read unchanged |
| Text.CarriageReturnEndsLine | nilrt_snac/_common.py:40-41 | after a text-mode read, a bare `\r` or a `\r\n` ends a line just as `\n` does |
| Text.SplitPieceAt | nilrt_snac/_configs/_config_file.py:94-95 | each piece of `str.split(c)` stands in the text between separators (or the text's ends) |
| Text.PieceInSplit | nilrt_snac/_configs/_config_file.py:94-95 | a separator-free stretch between separators (or the text's ends) is one of the pieces of `str.split(c)` |
| Text.Strip | nilrt_snac/_common.py:44 | the text with its whitespace removed at both ends, the middle untouched, neither end whitespace |
| Text.StripAround | nilrt_snac/_configs/_config_file.py:112 | stripping whitespace around a text without whitespace at its ends gives the text |
| Text.StripNotBlank | nilrt_snac/_configs/_config_file.py:112 | a text holding a non-whitespace character does not strip to empty |
| Text.StripSelf | nilrt_snac/_configs/_config_file.py:112 | a text without whitespace at its ends strips to itself |
| Text.TrimPadded | nilrt_snac/_configs/_firewall_config.py:125 | whitespace `int()` skips, around a text without such whitespace at its ends, trims away to that text |
| Text.TrimSpaces | nilrt_snac/_configs/_firewall_config.py:125 | a text of `str.isspace()` characters trims to such a text |
| Text.Upper | nilrt_snac/_logging.py:141 | same length; each ASCII lower-case letter made upper-case, every other character kept |
| Text.Lower | nilrt_snac/__main__.py:36 | same length; each ASCII upper-case letter made lower-case, every other character kept |
| Text.NatToStringValue | nilrt_snac/_logging.py:127 | the decimal digits of a number read back as that number |
| Text.ZeroPadValue | nilrt_snac/_logging.py:127 | a zero-padded field reads back as its number |
| Text.ZeroPadInjective | nilrt_snac/_logging.py:127 | different numbers give different zero-padded fields of the same width |
| Patterns.Search | nilrt_snac/_configs/_config_file.py:84 | a match needs a text at least as long as the pattern, and the empty pattern always matches |
| Patterns.ContainsSearch | nilrt_snac/_configs/_config_file.py:77-84 | a literal occurrence of the pattern is a match |
| Patterns.LiteralSearch | nilrt_snac/_configs/_config_file.py:77-84 | a pattern without `.` matches exactly when it occurs literally |
| Patterns.NewlineStopsMatch | nilrt_snac/_configs/_config_file.py:84 | a match spans a newline only when the pattern holds one |
| Patterns.SearchJoin | nilrt_snac/_configs/_config_file.py:84 | in lines joined by newlines, a newline-free pattern matches exactly when it matches inside one line |
| Patterns.SearchByLines | nilrt_snac/_configs/_config_file.py:84 | `re.search` of a newline-free pattern succeeds exactly when it succeeds on some line |
| Patterns.ReplaceEach | nilrt_snac/_configs/_config_file.py:51 | same number of lines; each selected line replaced, every other kept |
| Patterns.LinesOfReplaceLines | nilrt_snac/_configs/_config_file.py:51 | with a one-line replacement, the lines after a line-anchored substitution are the old lines, each replaced or kept |
| Patterns.LinesOfBlankLines | nilrt_snac/_configs/_config_file.py:51 | the same with an empty replacement |
| Patterns.ReplaceFirstLine | nilrt_snac/_configs/_config_file.py:51 | the substitution treats the first line, then the rest of the text independently |
| Patterns.ReplaceNothing | nilrt_snac/_configs/_config_file.py:51 | a substitution selecting no line leaves the text unchanged |
| Patterns.StartsSrcExtraHas | nilrt_snac/_configs/_opkg_config.py:38-39 | a line the anchored update empties is one the unanchored search finds |
| Patterns.SrcExtraAfterBlank | nilrt_snac/_configs/_opkg_config.py:38-39 | after the anchored update the search still succeeds exactly when some line names an extra feed without starting with `src` |
| CryptSetupConfig.Configure | nilrt_snac/_configs/_cryptsetup_config.py:13-16 | installing `cryptsetup` runs the helper's install commands for it; on success the package is in the helper's list (in a dry run too), on failure the list is unchanged; the dry-run flag is kept |
| CryptSetupConfig.Verify | nilrt_snac/_configs/_cryptsetup_config.py:18-24 | valid exactly when the helper lists `cryptsetup`; otherwise the one error logged is "MISSING: cryptsetup not installed" |
| FaillockConfig.Configure | nilrt_snac/_configs/_faillock_config.py:13-15 | installing `pam-plugin-faillock` through the older helper: same runs and list update as the shared install |
| FaillockConfig.Verify | nilrt_snac/_configs/_faillock_config.py:17-23 | valid exactly when the older helper lists `pam-plugin-faillock`; otherwise "MISSING: pam-plugin-faillock not installed" |
| SysApiConfig.Configure | nilrt_snac/_configs/_sysapi_config.py:13-15 | installing `ni-sysapi-sshcli`: the helper's runs and list update |
| SysApiConfig.Verify | nilrt_snac/_configs/_sysapi_config.py:17-23 | valid exactly when the helper lists `ni-sysapi-sshcli`; otherwise "MISSING: ni-sysapi-sshcli not installed" |
| SshConfig.Verify | nilrt_snac/_configs/_ssh_config.py:16-36 | valid exactly when sshd_config holds `ClientAliveInterval 15` and `ClientAliveCountMax 4` and tmout.sh holds `TMOUT=600`; valid iff no error; at most two errors, since only the first failing sshd check and the first failing tmout check are reported; each message appears exactly in its own case |
| SudoConfig.Configure | nilrt_snac/_configs/_sudo_config.py:14-27 | the files afterwards are `Configured`: unchanged in a dry run; otherwise the drop-in is created holding the comment and `Defaults timestamp_timeout=0`, or an existing one is saved as it is |
| SudoConfig.Verify | nilrt_snac/_configs/_sudo_config.py:29-39 | valid exactly when the drop-in exists and holds `Defaults timestamp_timeout=0`; a missing file gives only "MISSING: /etc/sudoers.d/snac not found", a file without the setting only "MISSING: immediate timestamp_timeout" |
| SudoConfig.ConfigureKeepsExisting | nilrt_snac/_configs/_sudo_config.py:18-27 | an existing drop-in is never changed by a real `configure` |
| SudoConfig.ConfigureThenValid | nilrt_snac/_configs/_sudo_config.py:14-39 | after a real `configure`, `verify` passes exactly when the drop-in was missing or already held the setting |
| X11Config.Configure | nilrt_snac/_configs/_x11_config.py:13-17 | removes `packagegroup-core-x11`, then `packagegroup-ni-xfce`, then the Japanese-locale glob with `ignore_installed`, each through the helper's remove, stopping at the first that raises; commands, result and list are those three removals composed |
| X11Config.Verify | nilrt_snac/_configs/_x11_config.py:19-28 | valid exactly when neither group is listed; valid iff no error; each FOUND message is logged exactly when its group is listed |
| X11Config.GlobRemovalUntracked | nilrt_snac/_configs/_x11_config.py:17 | removing the glob never changes the helper's list |
| X11Config.ConfigureThenValid | nilrt_snac/_configs/_x11_config.py:13-28 | with each group listed at most once, a `configure` that raises nothing leaves a list that `verify` accepts |
| UsbGuardConfig.Configure | nilrt_snac/_configs/_usbguard_config.py:20-23 | prints the manual-installation notice exactly when `usbguard` is not installed |
| UsbGuardConfig.Verify | nilrt_snac/_configs/_usbguard_config.py:25-59 | True when USBGuard is absent; otherwise True exactly when the daemon configuration exists, names a non-empty, existing rules file owned by root:root with mode 600; raises KeyError exactly when a reached ownership lookup finds no group entry |
| UsbGuardConfig.CommentedRuleFileFails | nilrt_snac/_configs/_usbguard_config.py:33-37 | a configuration whose only line is a commented `#RuleFile=` fails `verify` for an installed USBGuard |
| WifiConfig.BlockHasMarker | nilrt_snac/_configs/_wifi_config.py:19-29 | the dedented block `configure` adds contains the line it tests for, `install cfg80211 /bin/true` |
| WifiConfig.Configure | nilrt_snac/_configs/_wifi_config.py:15-37 | the block file afterwards is `Configured` (block added when the marker is absent, then saved; untouched in a dry run); outside a dry run exactly one `rmmod cfg80211 mac80211` runs without a status check, and no command runs in a dry run |
| WifiConfig.Verify | nilrt_snac/_configs/_wifi_config.py:39-49 | valid exactly when the file exists and contains the marker; valid iff no error; each MISSING message appears exactly when its own check fails |
| WifiConfig.ConfigureThenValid | nilrt_snac/_configs/_wifi_config.py:15-49 | after a real `configure`, `verify` passes whatever the file held before |
| WifiConfig.ConfigureIdempotent | nilrt_snac/_configs/_wifi_config.py:19-33 | a second real `configure` leaves the files as the first left them |
| NiAuthConfig.RemoveAuthPackages | nilrt_snac/_configs/_niauth_config.py:17-18 | removes `ni-auth` with both force flags, then `niacctbase-sudo`, stopping when the first raises; `nilrt-snac-conflicts` stays listed exactly when it was |
| NiAuthConfig.Configure | nilrt_snac/_configs/_niauth_config.py:14-26 | the two removals, then the conflicts package file installed unless a package of that name is listed, then `passwd -d root` with status check outside a dry run; each raising step stops the rest; commands, result and list are those steps composed |
| NiAuthConfig.Verify | nilrt_snac/_configs/_niauth_config.py:28-40 | valid exactly when neither `ni-auth` nor `niacctbase-sudo` is listed and `nilrt-snac-conflicts` is; valid iff no error; each message appears exactly in its own case |
| NiAuthConfig.ConflictsStayMissing | nilrt_snac/_configs/_niauth_config.py:19-20 | when `nilrt-snac-conflicts` was not listed, `verify` still fails after any `configure`, because the helper lists the installed package file, not the package name |
| NiAuthConfig.ConfigureThenValid | nilrt_snac/_configs/_niauth_config.py:14-40 | with the conflicts package already listed and each removed package listed at most once, a `configure` that raises nothing makes `verify` pass |
| NiAuthConfig.RemovalThenValid | nilrt_snac/_configs/_niauth_config.py:17-18 | both removals succeeding leave neither package listed, when each was listed at most once |
| NtpConfig.Configure | nilrt_snac/_configs/_ntp_config.py:15-31 | a failed `ntp` install raises and changes neither list nor file; otherwise `ntp` joins the list, the NI pool lines are emptied, the server line appended when absent and the file saved, and outside a dry run `ntpd restart` runs with its status ignored |
| NtpConfig.Verify | nilrt_snac/_configs/_ntp_config.py:33-46 | valid exactly when `ntp` is listed, the file holds the mil server setting and no NI pool match; valid iff no error; each message appears exactly in its own case |
| NtpConfig.NoNiPoolLeft | nilrt_snac/_configs/_ntp_config.py:22-23 | after the NI pool lines are emptied, the pool pattern matches nowhere in the text |
| NtpConfig.ServerSettingPresent | nilrt_snac/_configs/_ntp_config.py:25-26 | after the server line is added when missing, the text holds the setting `verify` searches for |
| NtpConfig.NoNiPoolInServerLine | nilrt_snac/_configs/_ntp_config.py:26 | the pool pattern matches nowhere inside the server line |
| NtpConfig.NoNiPoolAcrossJoin | nilrt_snac/_configs/_ntp_config.py:26 | appending the server line with no newline creates no pool match across the join |
| NtpConfig.AppendKeepsNoNiPool | nilrt_snac/_configs/_ntp_config.py:26 | appending the server line to a text without a pool match leaves it without one |
| NtpConfig.ConfigureThenValid | nilrt_snac/_configs/_ntp_config.py:15-46 | after a successful real `configure`, `verify` passes whatever the file held before |
| NtpConfig.ConfigureIdempotent | nilrt_snac/_configs/_ntp_config.py:22-28 | a second `configure` saves the text the first saved |
| TmuxConfig.Configure | nilrt_snac/_configs/_tmux_config.py:15-47 | a failed `tmux` install raises and changes nothing else; otherwise `tmux` joins the list and each of the two files is created with its block only when it did not exist, both saved |
| TmuxConfig.Verify | nilrt_snac/_configs/_tmux_config.py:49-69 | valid exactly when `tmux` is listed and both files exist holding their markers; valid iff no error; each of the five messages appears exactly in its own case |
| TmuxConfig.BlocksHaveMarkers | nilrt_snac/_configs/_tmux_config.py:22-44 | each created block holds the marker `verify` searches for |
| TmuxConfig.ConfigureThenValid | nilrt_snac/_configs/_tmux_config.py:15-69 | after a successful real `configure`, `verify` passes exactly when each file was missing or already held its marker: existing files are never amended |
| GraphicalConfig.RemoveGraphicalPackages | nilrt_snac/_configs/_graphical_config.py:21-22 | removes `packagegroup-ni-graphical`, then `packagegroup-core-x11`, both with autoremove, stopping when the first raises |
| GraphicalConfig.Configure | nilrt_snac/_configs/_graphical_config.py:14-22 | outside a dry run the checked `nirtcfg` UI switch runs first and a failure stops everything; then the two removals; commands, result and list are those steps composed |
| GraphicalConfig.FoundIn | nilrt_snac/_configs/_graphical_config.py:27-35 | a package is reported exactly when it is both checked and listed |
| GraphicalConfig.FindListed | nilrt_snac/_configs/_graphical_config.py:26-37 | the loop reports the listed packages in checking order without stopping early; valid iff nothing is reported |
| GraphicalConfig.Verify | nilrt_snac/_configs/_graphical_config.py:24-37 | valid exactly when none of the four forbidden packages is listed; the reported packages are the listed forbidden ones, in order |
| GraphicalConfig.RemovalKeepsOthers | nilrt_snac/_configs/_graphical_config.py:21-22 | the removals leave every other name listed exactly as before |
| GraphicalConfig.LeftoversStayForbidden | nilrt_snac/_configs/_graphical_config.py:21-33 | `configure` never removes `packagegroup-ni-xfce` or `sysconfig-settings-ui`, so either one listed keeps `verify` failing |
| GraphicalConfig.ConfigureThenValid | nilrt_snac/_configs/_graphical_config.py:14-37 | without those two and with each removed group listed at most once, a `configure` that raises nothing makes `verify` pass |
| OpkgConfig.BlockHasMarker | nilrt_snac/_configs/_opkg_config.py:23-31 | the added block contains `option autoremove 1` |
| OpkgConfig.DeleteFeedFile | nilrt_snac/_configs/_opkg_config.py:33-36 | `rm -fv /etc/opkg/NI-dist.conf` runs, checked, exactly when the file exists outside a dry run; the file is gone exactly when that run succeeds |
| OpkgConfig.SaveBoth | nilrt_snac/_configs/_opkg_config.py:41-42 | both files are saved in order outside a dry run; nothing changes in one |
| OpkgConfig.Configure | nilrt_snac/_configs/_opkg_config.py:17-43 | a failing `rm` raises before anything is saved; otherwise the autoremove block is added when missing, every line starting `src` and naming an extra feed is emptied, both files saved and `opkg update` runs, in a dry run too, its failure raised |
| OpkgConfig.AddMarkerBlock | nilrt_snac/_configs/_opkg_config.py:23-31 | the loaded text gains the autoremove block exactly when it lacks the marker; its mode and owner stay |
| OpkgConfig.DropExtraFeeds | nilrt_snac/_configs/_opkg_config.py:38-39 | when the text names an extra feed, every line that starts with `src` and names one is emptied; otherwise the text stays; its mode and owner stay |
| OpkgConfig.Verify | nilrt_snac/_configs/_opkg_config.py:45-62 | valid exactly when the autoremove file exists holding its marker and no base feed line matches `src.*/extra/.*`; valid iff no error; each message appears exactly in its own case |
| OpkgConfig.ConfigureThenValid | nilrt_snac/_configs/_opkg_config.py:38-60 | after a real `configure`, `verify` passes exactly when no base feed line names an extra feed without starting with `src`: the update is anchored, the check is not |
| Opkg.PackageOf | nilrt_snac/opkg.py:22-25 | a line yields a package exactly when it contains `" - "`; the package is the text before the first occurrence |
| Opkg.InstalledNamesMembers | nilrt_snac/opkg.py:22-25 | a name is listed exactly when some line of the output names it |
| Opkg.PackageOfListedLine | nilrt_snac/opkg.py:22-25 | a `<name> - <version>` line with a space-free name yields that name |
| Opkg.ParseListing | nilrt_snac/opkg.py:20-25 | parsing the listing of packages (names without spaces or newlines) gives back their names in order |
| Opkg.ParseInstalled | nilrt_snac/opkg.py:22-25 | the loop collects exactly the names of the parsed lines, in order |
| Opkg.RunOutcome | nilrt_snac/opkg.py:27-37 | `_run` succeeds exactly when opkg exits 0, returning its output; a nonzero status raises RuntimeError with the message naming the command and the code |
| Opkg.RunOpkg | nilrt_snac/opkg.py:27-37 | runs `opkg` followed by the command, once, and returns or raises what `RunOutcome` says |
| Opkg.InstallCommand | nilrt_snac/opkg.py:48-51 | `opkg install`, then `--force-reinstall` exactly when asked for, then the package last |
| Opkg.RemoveFlags | nilrt_snac/opkg.py:77-82 | each remove flag is present exactly when requested, and the flags keep the fixed order autoremove, force-essential, force-depends |
| Opkg.RemoveCommand | nilrt_snac/opkg.py:75-84 | `opkg remove`, then the requested flags, then the package last |
| Opkg.RemoveCommandOf | nilrt_snac/opkg.py:75-84 | the appends build exactly that command |
| Opkg.WithPackage | nilrt_snac/opkg.py:47-54 | after an install the package is listed, nothing listed is lost and nothing else is added; a listed package leaves the list unchanged, an absent one is appended at the end |
| Opkg.RemoveFirst | nilrt_snac/opkg.py:88 | Python's `list.remove`: one element shorter, one occurrence of the package fewer, and it is the first occurrence that goes |
| Opkg.RemoveUndoesInstall | nilrt_snac/opkg.py:47-88 | removing a package just installed restores the previous list |
| Opkg.InstallIdempotent | nilrt_snac/opkg.py:47-54 | installing twice lists the same as installing once |
| Opkg.Removed | nilrt_snac/opkg.py:71-88 | an untracked or absent removal keeps the list; a tracked one drops exactly one occurrence, so a package listed at most once is gone |
| Opkg.RemovedKeepsOthers | nilrt_snac/opkg.py:88 | a removal keeps every other name listed exactly as before |
| Opkg.RemoveLeavesAbsentIfSingle | nilrt_snac/opkg.py:88 | a package listed once is no longer listed after `list.remove` |
| Opkg.OpkgHelper.Create | nilrt_snac/opkg.py:13-25 | off NILRT the list is empty and nothing runs; on NILRT `opkg list-installed` runs once, its failure escapes, and on success the list is the parsed output; the dry-run flag is unset |
| Opkg.OpkgHelper.SetDryRun | nilrt_snac/opkg.py:39-42 | sets the dry-run flag and keeps the list |
| Opkg.OpkgHelper.IsInstalled | nilrt_snac/opkg.py:91-94 | true exactly when some entry of the list is the package's name |
| Opkg.OpkgHelper.Install | nilrt_snac/opkg.py:44-56 | runs the install command with status check only for an absent package outside a dry run; a failure raises and keeps the list; otherwise the list is `WithPackage` |
| Opkg.OpkgHelper.Remove | nilrt_snac/opkg.py:58-88 | does nothing for an absent package unless `ignore_installed`; otherwise runs the remove command with `check = not ignore_installed` outside a dry run; a failure raises and keeps the list, otherwise the list is `Removed` |
| Opkg.OpkgHelper.Update | nilrt_snac/opkg.py:96-99 | runs `opkg update` once; fails exactly when `_run` does, with its error |
| OpkgLegacy.OpkgHelper.Create | nilrt_snac/OpkgHelper.py:13-26 | off NILRT empty and nothing runs; on NILRT `opkg update` runs first and its failure escapes before any listing; otherwise `opkg list-installed` runs and the list is its parsed output |
| OpkgLegacy.OpkgHelper.SetDryRun | nilrt_snac/OpkgHelper.py:40-43 | sets the dry-run flag and keeps the list |
| OpkgLegacy.OpkgHelper.IsInstalled | nilrt_snac/OpkgHelper.py:78-81 | true exactly when some entry of the list is the package's name |
| OpkgLegacy.OpkgHelper.Install | nilrt_snac/OpkgHelper.py:45-57 | the same runs, result and list as the newer helper's install |
| OpkgLegacy.OpkgHelper.Remove | nilrt_snac/OpkgHelper.py:59-76 | as the newer helper's remove without the autoremove flag: acts when `ignore_installed` or listed, `check = not ignore_installed`, the list drops the package only for a tracked removal |
| OpkgLegacy.OpkgHelper.Update | nilrt_snac/OpkgHelper.py:83-86 | runs `opkg update` once; fails exactly when `_run` does |
| Common.IdValue | nilrt_snac/_common.py:43-44 | the distribution is the text after `ID=` up to the next `=`, stripped of surrounding whitespace |
| Common.DistroIsFirstIdLine | nilrt_snac/_common.py:42-44 | `get_distro` gives None exactly when no line starts with `ID=`, and otherwise the value of the first such line |
| Common.DistroOfIdLine | nilrt_snac/_common.py:37-44 | an `ID=` line holding a value without `=`, newline or surrounding whitespace yields that value, whatever follows |
| Common.IdLineValue | nilrt_snac/_common.py:43-44 | the value of `ID=<value>` is `<value>` itself for such a value |
| Common.OtherLinesSkipped | nilrt_snac/_common.py:43 | a line not starting with `ID=` (a `VERSION_ID=` line, say) does not decide the result |
| Common.GetDistro | nilrt_snac/_common.py:37-46 | the loop over the lines of `/etc/os-release`, read in text mode so `\r\n` and `\r` end lines too, returns the first `ID=` value, and None when the file is missing or has no such line |
| Common.IdLineAfterCarriageReturn | nilrt_snac/_common.py:40-44 | an `ID=` line that follows a line ended by a bare `\r` is still found, as `"NAME=x\rID=nilrt\n"` gives `nilrt` |
| Common.CheckPermissions | nilrt_snac/_common.py:26-29 | raises the file-not-found error exactly when the path is missing; otherwise True exactly when the permission bits equal the expected mode |
| Common.ChmodSatisfiesCheck | nilrt_snac/_common.py:26-29 | after a chmod to `m` (below 0o7777 + 1) the check for `m` passes, whatever the file-type bits |
| Common.CheckRejectsWideMode | nilrt_snac/_common.py:29 | an expected mode outside 0..0o7777 never passes |
| Common.CheckGroupOwnership | nilrt_snac/_common.py:9-15 | raises for a missing path, raises KeyError exactly when the file's gid has no group entry, otherwise True exactly when the first group entry with that id has the given name |
| Common.CheckOwner | nilrt_snac/_common.py:18-23 | the same as the group check, applied to the file's uid and looked up in the group database |
| Common.FirstNamed | nilrt_snac/_common.py:13-15 | the name a lookup returns is the given name exactly when the first entry with the id has that name |
| Common.OwnerCheckUsesGroupNames | nilrt_snac/_common.py:18-23 | the owner check gives what the group check would give for a file whose gid were its uid: no user database is consulted |
| Host.PermissionBits | nilrt_snac/_common.py:29 | `S_IMODE`: a value in 0..0o7777 that differs from the mode by a multiple of 0o10000 |
| Host.Chmodded | nilrt_snac/_configs/_config_file.py:36 | after a chmod the permission bits are those asked for and the file-type bits are kept |
| Host.FileSystem.WriteText | nilrt_snac/_configs/_config_file.py:35 | an existing file gets the new text and keeps mode and owner; a new file gets the text, mode 0o644 and root |
| Host.FileSystem.Delete | nilrt_snac/_configs/_opkg_config.py:36 | the path is gone and nothing else changes |
| Host.FileSystem.Chmod | nilrt_snac/_configs/_config_file.py:36 | only the mode of that file changes, as `Chmodded` says |
| Host.FileSystem.Chown | nilrt_snac/_configs/_config_file.py:38 | only the owner and group of that file change |
| Host.IdOf | nilrt_snac/_configs/_config_file.py:74-75 | `getpwnam`/`getgrnam`: None exactly when no entry has the name, otherwise the id of an entry with that name |
| Host.NameOf | nilrt_snac/_common.py:13 | `getgrgid`: None exactly when no entry has the id, otherwise the name of an entry with that id |
| Host.Accounts.AddGroup | nilrt_snac/_configs/_auditd_config.py:45 | a `groupadd` appends the new group; users unchanged |
| Host.Completed | nilrt_snac/_configs/_ntp_config.py:31 | a run whose status is ignored succeeds exactly when it did not raise, and raises the same error |
| Host.Shell.Outcome | nilrt_snac/_configs/_niauth_config.py:24 | `subprocess.run`: raises exactly when the program is missing or, with `check`, the status is nonzero; otherwise returns the status |
| Host.Shell.Run | nilrt_snac/_configs/_niauth_config.py:24 | records the command once and returns or raises what `Outcome` says |
| Host.Shell.GetOutput | nilrt_snac/_configs/_firewall_config.py:20-21 | `subprocess.getoutput`: runs the command through `/bin/sh -c` once and returns its output, never raising |
| Host.CheckedRuns | nilrt_snac/_configs/_firewall_config.py:43-118 | checked commands started in order form a prefix of the list, ending at the first failure |
| Host.CheckedResult | nilrt_snac/_configs/_firewall_config.py:43-118 | the run succeeds exactly when every command would; then all were started; a failure is the error of one of the commands |
| Host.CheckedAppend | nilrt_snac/_configs/_firewall_config.py:43-118 | running two lists of checked commands in turn is running them joined |
| Host.CheckedAdvance | nilrt_snac/_configs/_firewall_config.py:43-118 | a succeeding first command leaves the rest to run |
| Host.CheckedStop | nilrt_snac/_configs/_firewall_config.py:43-118 | a failing first command ends the run with its error |
| Host.RunChecked | nilrt_snac/_configs/_firewall_config.py:43-118 | the loop starts exactly the `CheckedRuns` commands and returns the `CheckedResult` |
| ConfigFiles.RemoveBlanks | nilrt_snac/_configs/_config_file.py:111 | the result holds exactly the characters of the input other than spaces and tabs, is no longer than it, and is the input itself when it has no space or tab |
| ConfigFiles.RemoveBlanksAppend | nilrt_snac/_configs/_config_file.py:111 | deleting spaces and tabs from two joined texts gives the two results joined, so the characters kept stay in order |
| ConfigFiles.FirstValueIsFirstMatch | nilrt_snac/_configs/_config_file.py:109-113 | `get` is `""` when no line is keyed by the key, and otherwise the stripped value of the first keyed line |
| ConfigFiles.NoKeyedLine | nilrt_snac/_configs/_config_file.py:109-113 | with no line keyed by the key, `get` is `""` |
| ConfigFiles.FirstKeyedLine | nilrt_snac/_configs/_config_file.py:109-113 | `get` is the stripped value of the first keyed line, whatever follows it |
| ConfigFiles.KeyValueLine | nilrt_snac/_configs/_config_file.py:110-112 | a `key = value` line is keyed by `key` and carries `value`, for a blank-free key and a value without surrounding whitespace |
| ConfigFiles.GetRoundTrip | nilrt_snac/_configs/_config_file.py:98-113 | writing `key = value` as the first line is read back by `get` as `value`, whatever follows |
| ConfigFiles.RemoveTrailingBlank | nilrt_snac/_configs/_config_file.py:111 | a blank after a blank-free key is deleted by the blank removal |
| ConfigFiles.CommentedLineIgnored | nilrt_snac/_configs/_config_file.py:110-111 | a commented `#key=value` line is never read as `key` |
| ConfigFiles.ExactLineStrips | nilrt_snac/_configs/_config_file.py:94-95 | a line that is the key with whitespace around it strips to the key |
| ConfigFiles.StrippedIsExact | nilrt_snac/_configs/_config_file.py:94-95 | a line that strips to the key is the key with whitespace around it |
| ConfigFiles.ExactLineIsStripped | nilrt_snac/_configs/_config_file.py:86-95 | for a key without surrounding whitespace, `contains_exact` finds a line exactly when some line strips to the key |
| ConfigFiles.SavedEntry | nilrt_snac/_configs/_config_file.py:30-38 | the saved file holds the text and the loaded permission bits; the owner is set only when both uid and gid are known, otherwise it stays as it was (root for a new file) |
| ConfigFiles.SavedAs | nilrt_snac/_configs/_config_file.py:16-38 | loading, replacing the text and saving touches only that path: its text is the new one, an existing file keeps mode and owner, a new file gets mode 0o600 and root, every other file is unchanged |
| ConfigFiles.SavedAsUnchanged | nilrt_snac/_configs/_config_file.py:16-38 | saving an existing file with its own text leaves the files as they were |
| ConfigFiles.SavedAsTwice | nilrt_snac/_configs/_config_file.py:30-38 | saving the same text twice is saving it once |
| ConfigFiles.AddedIfMissingHasMarker | nilrt_snac/_configs/_config_file.py:53-84 | when the block holds the marker, the text holds it after `if not contains(marker): add(block)` |
| ConfigFiles.AddedIfMissingIdempotent | nilrt_snac/_configs/_config_file.py:53-84 | adding a block that holds its marker a second time changes nothing |
| ConfigFiles.AddAndSaveIdempotent | nilrt_snac/_configs/_config_file.py:16-84 | load, add the block when the marker is missing, save: doing it twice leaves the files as once |
| ConfigFiles.ConfigFile.constructor | nilrt_snac/_configs/_config_file.py:16-28 | an existing file is loaded with its text, mode, uid and gid; a missing one gives empty text, mode 0o600 and no owner |
| ConfigFiles.ConfigFile.Save | nilrt_snac/_configs/_config_file.py:30-40 | a dry run writes nothing; otherwise the path gets the text, the mode, and the owner when both ids are known; for a freshly loaded file this is `SavedAs` |
| ConfigFiles.ConfigFile.Update | nilrt_snac/_configs/_config_file.py:42-51 | the text becomes the substitution of the old text; mode and owner unchanged |
| ConfigFiles.ConfigFile.Add | nilrt_snac/_configs/_config_file.py:53-59 | the value is appended verbatim; mode and owner unchanged |
| ConfigFiles.ConfigFile.Exists | nilrt_snac/_configs/_config_file.py:61-62 | true exactly when the path is on the disk, whatever the buffer holds |
| ConfigFiles.ConfigFile.Chmod | nilrt_snac/_configs/_config_file.py:64-65 | only the mode to be saved changes |
| ConfigFiles.ConfigFile.Chown | nilrt_snac/_configs/_config_file.py:67-75 | an unknown user raises KeyError with nothing changed; an unknown group raises KeyError after the uid was already set; otherwise both ids are set |
| ConfigFiles.ConfigFile.Contains | nilrt_snac/_configs/_config_file.py:77-84 | for a pattern without `.`, true exactly when the buffered text holds the pattern literally |
| ConfigFiles.ConfigFile.ContainsExact | nilrt_snac/_configs/_config_file.py:86-95 | whether `^\s*key\s*$` matches the buffered text under `re.MULTILINE`; for a key without a newline or surrounding whitespace, true exactly when some line strips to the key |
| ConfigFiles.ConfigFile.Get | nilrt_snac/_configs/_config_file.py:98-113 | `""` when no line is keyed by the key; otherwise the stripped value of the first keyed line |
| ConfigFiles.ContainsExactStripped | nilrt_snac/_configs/_config_file.py:86-95 | over a whole text, `contains_exact` holds exactly when some line strips to a key without a newline or surrounding whitespace |
| ConfigFiles.ContainsExactByLines | nilrt_snac/_configs/_config_file.py:94-95 | for a key without a newline, the multiline pattern matches exactly when some line of the text is the key with whitespace around it, though `\s*` may cross newlines |
| ConfigFiles.MatchLine | nilrt_snac/_configs/_config_file.py:94-95 | a match of a one-line key lies, with its surrounding whitespace, on a single line |
| ConfigFiles.LineMatch | nilrt_snac/_configs/_config_file.py:94-95 | a line that is the key with whitespace around it gives a match |
| ConfigFiles.KeyOnOwnLines | nilrt_snac/_configs/_config_file.py:94-95 | a key standing alone between line boundaries is found even when it holds newlines, as `"a\nb"` in the text `"a\nb"` |
| ConfigFiles.LineStart | nilrt_snac/_configs/_config_file.py:94-95 | the start of the line holding a position is a place `^` matches, with no newline between it and the position |
| ConfigFiles.LineEnd | nilrt_snac/_configs/_config_file.py:94-95 | the end of the line holding a position is a place `$` matches, with no newline between the position and it |
| ConfigFiles.LiteralSearchIf | nilrt_snac/_configs/_config_file.py:77-84 | a pattern without `.` is found exactly when it occurs literally |
| AuditdConfig.AddressParts | nilrt_snac/_configs/_auditd_config.py:89-92 | `local@domain` is a whole match of the e-mail pattern exactly when the local part is non-empty over letters, digits and `._%+-` and the domain is non-empty over letters, digits and `.-` |
| AuditdConfig.ValidEmailChars | nilrt_snac/_configs/_auditd_config.py:89-92 | an accepted address holds no line break, blank, quote or backslash except one final newline, which `$` lets through; without a newline it is a whole match |
| AuditdConfig.DefaultAddress | nilrt_snac/_configs/_auditd_config.py:124-126 | the fallback `root@<hostname>` is accepted exactly when the host name is non-empty over letters, digits, dots and hyphens |
| AuditdConfig.SelectEmail | nilrt_snac/_configs/_auditd_config.py:116-124 | with `--yes`, or with a valid candidate (the given address, or the recorded one when none is given), the address becomes `root@<hostname>`; an invalid candidate without `--yes` takes the typed answer |
| AuditdConfig.TemplateNamesRecipient | nilrt_snac/_configs/_auditd_config.py:48-87 | the alert script names the address as its single-quoted recipient, and reading the recipient back gives the address |
| AuditdConfig.MailSettingIsMailLine | nilrt_snac/_configs/_auditd_config.py:127 | the written `action_mail_acct = <address>` line is itself matched by the rewrite's pattern, so the rewrite is stable |
| AuditdConfig.MailRecorded | nilrt_snac/_configs/_auditd_config.py:127-202 | when the first line is an `action_mail_acct` line, after the rewrite `get` reads back the address written and `verify`'s address check passes |
| AuditdConfig.NoMailSettingStaysInvalid | nilrt_snac/_configs/_auditd_config.py:127-202 | a configuration without any `action_mail_acct` line is left unchanged by the rewrite, so `verify`'s address check keeps failing |
| AuditdConfig.GroupsAddedProvides | nilrt_snac/_configs/_auditd_config.py:39-46 | on success every wanted group exists; the group database only grows at its end; every command run is a `groupadd` of a wanted group that did not exist |
| AuditdConfig.GroupCreated | nilrt_snac/_configs/_auditd_config.py:41-45 | a created group is followed by the walk over the remaining groups against the grown database |
| AuditdConfig.EnsureGroupsExist | nilrt_snac/_configs/_auditd_config.py:39-46 | the loop runs exactly the `groupadd`s of `GroupsAdded`, stops at the first failure with its error, and leaves the group database as `GroupsAdded` says; the user database is unchanged |
| AuditdConfig.ServiceCommands | nilrt_snac/_configs/_auditd_config.py:174-184 | the restart is always among the commands; `update-rc.d auditd defaults` is exactly when the runlevel link is missing |
| AuditdConfig.StartService | nilrt_snac/_configs/_auditd_config.py:174-184 | runs those commands checked, in order, up to the first failure, whose error it raises; on success the history ends with them |
| AuditdConfig.ScriptWritten | nilrt_snac/_configs/_auditd_config.py:138-143 | only the alert script path changes, and only when it did not exist, to the template for the address |
| AuditdConfig.WriteAlertScript | nilrt_snac/_configs/_auditd_config.py:138-147 | an existing script means nothing is written or run; otherwise the script is written (in a dry run too) and the checked `chown root:sudo`, `chmod 700` follow |
| AuditdConfig.HandOverScript | nilrt_snac/_configs/_auditd_config.py:145-147 | runs the checked `chown root:sudo` and then `chmod 700` on the alert script, stopping at the first that fails, and returns that outcome |
| AuditdConfig.CreateAlertScript | nilrt_snac/_configs/_auditd_config.py:142-143 | the file system afterwards is `ScriptWritten` |
| AuditdConfig.PluginWritten | nilrt_snac/_configs/_auditd_config.py:149-165 | only the plugin path changes, and only when it did not exist: it holds the plugin text, and with a known owner it has mode 0o600 and that owner |
| AuditdConfig.WritePluginEntry | nilrt_snac/_configs/_auditd_config.py:149-165 | an existing entry means nothing changes; otherwise the text is written, the entry succeeds exactly when `root` and `sudo` are both known, an unknown one raises KeyError naming it, and mode and owner are applied only in a real run |
| AuditdConfig.SetUpAlerts | nilrt_snac/_configs/_auditd_config.py:129-165 | on success the SMTP module and the audispd plugins are listed, the script and plugin entry written as above; no installed package is lost and no other file changes |
| AuditdConfig.RecordAddress | nilrt_snac/_configs/_auditd_config.py:126-165 | the loaded text gets the rewrite; an invalid address changes nothing else and runs nothing; a valid one sets up the alerts |
| AuditdConfig.SaveConfiguration | nilrt_snac/_configs/_auditd_config.py:169-171 | succeeds exactly when `root` and `sudo` are known (else KeyError, nothing written); a real run saves the loaded text with mode 0o660 owned by root:sudo; no other file changes |
| AuditdConfig.ApplyAddress | nilrt_snac/_configs/_auditd_config.py:126-184 | on success: the configuration holds the rewritten text with mode 0o660 and root:sudo, a valid address has its packages and alert script, and the history ends with the service commands; a dry run leaves the configuration file as it was |
| AuditdConfig.RecordAndSave | nilrt_snac/_configs/_auditd_config.py:126-171 | on success: a valid address has its two packages and the alert script; outside a dry run the configuration holds the rewritten text with mode 0o660 and root:sudo; a dry run leaves that file as it was; no file but the three audit files changes |
| AuditdConfig.Configure | nilrt_snac/_configs/_auditd_config.py:102-184 | on success `auditd` is listed, `adm` and `sudo` exist, the configuration records the chosen address with mode 0o660 and root:sudo, and the service was started; missing `audit_email` raises AttributeError; only the three files it names change |
| AuditdConfig.Verify | nilrt_snac/_configs/_auditd_config.py:188-226 | raises exactly when the configuration or log directory is missing or an id has no group entry (file-not-found for a missing configuration); otherwise True exactly when auditd is listed, the address is valid, the configuration is root:sudo with mode 0o660 and the log directory root:adm with 0o770 |
| FirewallConfig.Offline | nilrt_snac/_configs/_firewall_config.py:13-15 | `firewall-offline-cmd -q` followed by the arguments unchanged |
| FirewallConfig.Online | nilrt_snac/_configs/_firewall_config.py:9-11 | `firewall-cmd -q` followed by the arguments unchanged |
| FirewallConfig.ServiceArgs | nilrt_snac/_configs/_firewall_config.py:53-56 | one `--add-service=` argument per service |
| FirewallConfig.RichRuleArgs | nilrt_snac/_configs/_firewall_config.py:77-82 | one `--add-rich-rule=` argument per ICMP type |
| FirewallConfig.Args | nilrt_snac/_configs/_firewall_config.py:43-116 | every offline call has at least one argument |
| FirewallConfig.PolicyTarget | nilrt_snac/_configs/_firewall_config.py:49-111 | a policy's calls set a target exactly when it is given one, and then only that target |
| FirewallConfig.ConfigureCommands | nilrt_snac/_configs/_firewall_config.py:43-118 | every offline call, in source order, then one online `--reload` |
| FirewallConfig.InstallsProvide | nilrt_snac/_configs/_firewall_config.py:39-41 | when the three installs succeed, `firewalld`, `firewalld-offline-cmd` and `firewalld-log-rotate` are listed and nothing listed is lost |
| FirewallConfig.Configure | nilrt_snac/_configs/_firewall_config.py:32-118 | a dry run returns with nothing run or changed; otherwise the three installs, and only when they succeed the commands run checked, in order, up to the first failure, which is raised |
| FirewallConfig.Install | nilrt_snac/_configs/_firewall_config.py:39-41 | the three installs in order, each raising failure stopping the rest |
| FirewallConfig.ConfigureStartsFromDefaults | nilrt_snac/_configs/_firewall_config.py:43-118 | the first command resets to defaults, the last reloads online, and every other one is offline |
| FirewallConfig.OnlyTargetCallsSetTargets | nilrt_snac/_configs/_firewall_config.py:43-116 | no argument of a call other than a set-target call starts with `--set-target=` |
| FirewallConfig.ArgumentOfOtherCall | nilrt_snac/_configs/_firewall_config.py:43-116 | the same, argument by argument |
| FirewallConfig.ServiceArgPrefix | nilrt_snac/_configs/_firewall_config.py:53-56 | each service argument has `a` (of `--add-`) as its third character, so it is not a set-target |
| FirewallConfig.RichRuleArgPrefix | nilrt_snac/_configs/_firewall_config.py:77-82 | each rich-rule argument likewise |
| FirewallConfig.OnlyOutPoliciesReject | nilrt_snac/_configs/_firewall_config.py:67-105 | `work-out` and `public-out` are set to REJECT, and no other target is set anywhere |
| FirewallConfig.ChecksMatchConfigure | nilrt_snac/_configs/_firewall_config.py:43-139 | the policies `verify` expects to REJECT are given that target by `configure`, and those it expects to CONTINUE are given no target at all |
| FirewallConfig.CheckTarget | nilrt_snac/_configs/_firewall_config.py:17-25 | runs the target query once through the shell; passes exactly when the answer equals the expected target |
| FirewallConfig.SinglePidParses | nilrt_snac/_configs/_firewall_config.py:125 | one pid with whitespace `int()` skips around it parses as an int |
| FirewallConfig.SeparatorBeforePidRejected | nilrt_snac/_configs/_firewall_config.py:125-128 | a pid behind one of the separators 0x1C-0x1F is a ValueError: `int()` does not skip them although `str.isspace()` accepts them |
| FirewallConfig.NoPidRejected | nilrt_snac/_configs/_firewall_config.py:125-128 | no pid (only `str.isspace()` whitespace, separators included) is a ValueError, so a stopped daemon is reported |
| FirewallConfig.TwoPidsRejected | nilrt_snac/_configs/_firewall_config.py:125-128 | two pids separated by a space are a ValueError too: two running daemons are reported as none |
| FirewallConfig.UnsignedLiteral | nilrt_snac/_configs/_firewall_config.py:125 | text that starts with neither a sign nor whitespace `int()` skips, and ends without such whitespace, parses exactly when it is digit groups |
| FirewallConfig.SpaceBreaksDigits | nilrt_snac/_configs/_firewall_config.py:125 | a space inside the text is never part of a number |
| FirewallConfig.ValidChecksEveryTarget | nilrt_snac/_configs/_firewall_config.py:120-140 | valid means a parsable pid, `firewall-cmd` present, and each of the four policies reporting its expected target |
| FirewallConfig.Verify | nilrt_snac/_configs/_firewall_config.py:120-140 | raises CalledProcessError exactly when `firewall-cmd` exists and `--check-config` fails; otherwise runs all six queries in order and is True exactly when valid |
| FirewallConfig.CheckTargets | nilrt_snac/_configs/_firewall_config.py:136-139 | all four target queries run, in order, whatever the earlier ones answered; the result is true exactly when each policy answers its expected target |
| ClamAvConfig.InstalledOf | nilrt_snac/_configs/_clamav_config.py:26 | the packages kept are exactly the named ones that are installed, never more than named |
| ClamAvConfig.InstalledOfAppend | nilrt_snac/_configs/_clamav_config.py:26 | the filter keeps the order of the names: filtering a concatenation filters each part |
| ClamAvConfig.Matching | nilrt_snac/_configs/_clamav_config.py:106 | `glob("*suffix")` keeps exactly the entries whose name ends with the suffix |
| ClamAvConfig.NonEmpty | nilrt_snac/_configs/_clamav_config.py:113 | exactly the files of non-zero size are kept |
| ClamAvConfig.Signatures | nilrt_snac/_configs/_clamav_config.py:98-119 | no directory exactly when there is none; no signature file exactly when no entry ends in `.cvd` or `.cld`; all empty exactly when there are signature files and every one has size 0; found exactly when some signature file is not empty, and then the count is the number of non-empty `.cvd` and `.cld` files |
| ClamAvConfig.CountUsable | nilrt_snac/_configs/_clamav_config.py:106-119 | the number of non-empty signature files is at most the number of entries, and positive exactly when one exists |
| ClamAvConfig.NonEmptyAppend | nilrt_snac/_configs/_clamav_config.py:113 | keeping the non-empty files of two listings one after the other keeps those of each |
| ClamAvConfig.UsableCount | nilrt_snac/_configs/_clamav_config.py:106-119 | the non-empty files of the `*.cvd` glob followed by the `*.cld` glob are exactly as many as the non-empty signature files |
| ClamAvConfig.UsableCountBySuffix | nilrt_snac/_configs/_clamav_config.py:106-113 | the two globs' non-empty files together count each non-empty signature file once, since no name ends in both suffixes |
| ClamAvConfig.Verify | nilrt_snac/_configs/_clamav_config.py:71-127 | passes exactly when no ClamAV package is installed or both configurations exist and are not empty; the signature report never changes the verdict |
| ClamAvConfig.AnyPackageTriggersChecks | nilrt_snac/_configs/_clamav_config.py:74-98 | one installed package is enough for the verdict to rest on the two configurations |
| ClamAvConfig.Attempt | nilrt_snac/_configs/_clamav_config.py:141-149 | an installed package, or a helper whose dry-run flag was never set, starts nothing and changes nothing |
| ClamAvConfig.AttemptAllKeeps | nilrt_snac/_configs/_clamav_config.py:140-149 | the attempts only add to the installed list, and only packages that were attempted |
| ClamAvConfig.EachPackageAttempted | nilrt_snac/_configs/_clamav_config.py:140-149 | a failed install does not stop the loop: each package ends up installed exactly when it already was, the run is dry, or its own install succeeds |
| ClamAvConfig.UnsetHelperInstallsNothing | nilrt_snac/_configs/_clamav_config.py:144-149 | with the dry-run flag unset every install raises before starting a command, so nothing is installed and nothing runs |
| ClamAvConfig.InstallPackages | nilrt_snac/_configs/_clamav_config.py:129-152 | `opkg update` first, whose failure is raised with nothing installed; otherwise the commands and the installed list are those of one caught attempt per package |
| ClamAvConfig.AttemptEach | nilrt_snac/_configs/_clamav_config.py:140-149 | the loop's commands and installed list are those of the attempts in order |
| ClamAvConfig.Symlinks.Unlink | nilrt_snac/_configs/_clamav_config.py:410 | the link is removed and no other |
| ClamAvConfig.Copy2 | nilrt_snac/_configs/_clamav_config.py:386 | the destination's target gets the source's text and permission bits; no other file changes |
| ClamAvConfig.BackupDns | nilrt_snac/_configs/_clamav_config.py:376-394 | when resolv.conf exists and no backup does, the backup receives its text: a regular file byte for byte (`shutil.copy2`), a link's target as read in text mode, with `\r\n` and `\r` turned into `\n`; otherwise nothing changes |
| ClamAvConfig.DiagnoseAsWritten | nilrt_snac/_configs/_clamav_config.py:405-418 | the existence test comes first, so the dangling-link diagnosis is never made |
| ClamAvConfig.Diagnose | nilrt_snac/_configs/_clamav_config.py:402-418 | broken link, missing, or healthy each exactly when the links and files say so; otherwise resolv.conf is blank or names no nameserver |
| ClamAvConfig.DiagnosesDifferOnlyOnBrokenLinks | nilrt_snac/_configs/_clamav_config.py:405-411 | the code as written takes a dangling link for a missing file and agrees with the corrected diagnosis everywhere else |
| ClamAvConfig.DanglingLinkKeptAsWritten | nilrt_snac/_configs/_clamav_config.py:405-411 | for a link to a missing target, the code as written reports "missing" where the link should be removed |
| ClamAvConfig.FallbackUsable | nilrt_snac/_configs/_clamav_config.py:429-433 | the fallback text names a nameserver and is not blank, so a later repair accepts it |
| ClamAvConfig.Examine | nilrt_snac/_configs/_clamav_config.py:402-418 | the diagnosis is the corrected one of the first Findings row, so a dangling link is diagnosed as broken; only a broken link is removed |
| ClamAvConfig.Restore | nilrt_snac/_configs/_clamav_config.py:420-436 | resolv.conf holds the backup's text when there is a backup, the fallback nameservers when there is none, with mode 0o644; nothing else changes |
| ClamAvConfig.FixDns | nilrt_snac/_configs/_clamav_config.py:396-454 | a healthy resolv.conf is left alone; otherwise it is repaired from the backup or the fallback with mode 0o644 and `nslookup` runs once; a backup that is resolv.conf itself ends the repair with nothing changed |
| ClamAvConfig.TextsNotEmpty | nilrt_snac/_configs/_clamav_config.py:197-226 | the freshclam and clamd configurations and the wrapper are non-empty texts |
| ClamAvConfig.WriteWithMode | nilrt_snac/_configs/_clamav_config.py:221-223 | the file holds the text with the given permission bits, keeps its owner, and nothing else changes |
| ClamAvConfig.PairRuns | nilrt_snac/_configs/_clamav_config.py:341-359 | the first command always runs, and the second runs exactly when the first one's program exists |
| ClamAvConfig.RunPair | nilrt_snac/_configs/_clamav_config.py:341-349 | the commands started are those of the pair, the status of neither checked |
| ClamAvConfig.DisableServices | nilrt_snac/_configs/_clamav_config.py:336-374 | the three pairs run in order, whatever each one's outcome |
| ClamAvConfig.ServicesStopped | nilrt_snac/_configs/_clamav_config.py:341-359 | with `systemctl` present both services are disabled and stopped |
| ClamAvConfig.CreateLog | nilrt_snac/_configs/_clamav_config.py:161-177 | with a clamav user and group a missing freshclam log is created, owned by them with mode 0o644; otherwise no file changes |
| ClamAvConfig.ConfigureFiles | nilrt_snac/_configs/_clamav_config.py:154-196 | both configurations hold their texts with mode 0o644, the log is created as above, the services are disabled, and no other file changes |
| ClamAvConfig.CreateWrapper | nilrt_snac/_configs/_clamav_config.py:456-552 | the wrapper holds its script with mode 0o755 and nothing else changes |
| ClamAvConfig.InstallBranch | nilrt_snac/_configs/_clamav_config.py:28-32 | only a failing `opkg update` makes it fail; otherwise the packages are attempted |
| ClamAvConfig.Configure | nilrt_snac/_configs/_clamav_config.py:23-38 | fails exactly when nothing was installed and `opkg update` fails; otherwise installs only when nothing was installed, writes both configurations and the wrapper, and leaves the system valid for `verify` |
| ClamAvConfig.RewriteFiles | nilrt_snac/_configs/_clamav_config.py:36-37 | both configurations and the wrapper hold their texts afterwards, and both configurations are present and non-empty, which is what `verify` asks |
| Cli.LevelOf | nilrt_snac/__main__.py:116-119 | debug logging exactly when `-v` is given, info otherwise |
| Cli.ConsentAnswers | nilrt_snac/__main__.py:31-37 | without `--yes`, the answer is consent exactly when it is "y" or "yes" in any capitalisation |
| Cli.RefusedAnswers | nilrt_snac/__main__.py:31-37 | the empty answer, "n" and answers with surrounding spaces are refusals; `--yes` consents whatever is typed |
| Cli.FirstError | nilrt_snac/__main__.py:41-42 | the first step that raised, with every step before it returning; none exactly when all returned |
| Cli.Called | nilrt_snac/__main__.py:41-42 | a loop that stops at the first exception calls every step up to and including the one that raised, or all of them |
| Cli.ConfigureLoopResult | nilrt_snac/__main__.py:41-47 | returns `EX_OK` exactly when no step raised; otherwise raises the error of a step |
| Cli.VerifyResult | nilrt_snac/__main__.py:50-60 | `EX_OK` exactly when every step returned True; `EX_CHECK_FAILURE` when all returned and one returned False; the first step's exception otherwise |
| Cli.UpdateResult | nilrt_snac/__main__.py:40 | the feed refresh fails exactly when `opkg update` does, with its error |
| Cli.ConfigureResult | nilrt_snac/__main__.py:25-47 | a refusal returns `EX_OK` without doing anything; with consent a failing refresh raises, otherwise the loop decides |
| Cli.Configure | nilrt_snac/__main__.py:25-47 | a refusal runs nothing and calls no step; with consent `opkg update` runs once, then the steps are called up to the first exception, and the result is that of the configure outcome |
| Cli.Verify | nilrt_snac/__main__.py:50-60 | every step is called, also after one returned False, until one raises; the result is that of the verify outcome |
| Cli.Caught | nilrt_snac/__main__.py:135-143 | a `SNACError` becomes its return code; anything else passes through unchanged |
| Cli.MainResult | nilrt_snac/__main__.py:109-143 | `--version` wins, a missing command is `EX_USAGE`, the prerequisites matter only outside a dry run, and a `SNACError` from them or the command is the exit code |
| Cli.PrepareHelpersAsWritten | nilrt_snac/__main__.py:125 | only the older helper gets the dry-run flag; the newer one keeps its flag unset |
| Cli.AsWrittenLeavesHelperUnset | nilrt_snac/__main__.py:125 | after set-up as written, a newer helper built without the flag still lacks it while the SysAPI package is missing, so that step's install would fail |
| Cli.PrepareHelpers | nilrt_snac/__main__.py:125 | both helpers get the dry-run flag and keep their package lists |
| Cli.RunMain | nilrt_snac/__main__.py:109-143 | the log level; the helpers' flags as the corrected set-up `PrepareHelpers` leaves them, both set (as written only the older helper's is, see `Cli.AsWrittenLeavesHelperUnset`); the exit code of `MainResult`; at most one `opkg update` and only for `configure`; no step called for `--version`, a missing command or failed prerequisites |
| Cli.VersionIgnoresCommand | nilrt_snac/__main__.py:127-129 | with `--version` the outcome is `EX_OK` with or without a command |
| Cli.UsageMentionsHelp | nilrt_snac/__main__.py:131-133 | the usage error points at `--help` |
| Cli.DryRunSkipsPrerequisites | nilrt_snac/__main__.py:136-137 | in a dry run the prerequisite check plays no part in the outcome |
| Cli.VerifyExitCodes | nilrt_snac/__main__.py:50-60 | `verify` whose steps all return exits 0 when every check passed and 129 otherwise |
| Cli.RefusalExitsCleanly | nilrt_snac/__main__.py:36-37 | a refused `configure` exits 0 whatever the steps would do |
| SnacLogging.Accepts | nilrt_snac/_logging.py:55-60 | a write succeeds exactly when the stream is open, unbroken and has room for the data; a closed stream raises "I/O operation on closed file." |
| SnacLogging.FlushOutcome | nilrt_snac/_logging.py:56-61 | a flush succeeds exactly when the stream is open and unbroken |
| SnacLogging.Stream.constructor | nilrt_snac/_logging.py:217-220 | a new stream is open and holds no text |
| SnacLogging.Stream.Write | nilrt_snac/_logging.py:55-60 | the data is stored whole or not at all, and the count or the exception is returned |
| SnacLogging.Stream.Flush | nilrt_snac/_logging.py:56-61 | the result is the flush outcome; the text is unchanged |
| SnacLogging.Stream.Close | nilrt_snac/_logging.py:278 | close flushes first and leaves the stream closed even if that raised; closing twice does nothing |
| SnacLogging.TeeConsoleFailurePropagates | nilrt_snac/_logging.py:55 | a console that refuses the data makes the tee raise, and neither stream changes |
| SnacLogging.TeeLogFailureSwallowed | nilrt_snac/_logging.py:59-66 | a log file that refuses the data never makes the tee raise; the console shows the data and then the warning, and the log is unchanged |
| SnacLogging.TeeCopiesData | nilrt_snac/_logging.py:45-66 | when both streams accept, each gains exactly the data and the count is the console's |
| SnacLogging.TeeStream.constructor | nilrt_snac/_logging.py:33-41 | the tee keeps the console and the log file it was given |
| SnacLogging.TeeStream.Write | nilrt_snac/_logging.py:45-66 | the console, the log file and the result are those of one tee write |
| SnacLogging.TeeStream.Flush | nilrt_snac/_logging.py:68-74 | only a console flush failure is raised; a log failure is ignored |
| SnacLogging.Replay | nilrt_snac/_logging.py:232-247 | the body's writes keep the log file attached exactly when it was |
| SnacLogging.EmitRoomy | nilrt_snac/_logging.py:45-66 | with room everywhere one chunk reaches its own console and the log file |
| SnacLogging.EmitRefused | nilrt_snac/_logging.py:59-64 | a refused chunk reaches its console followed by the warning and leaves the log file unchanged |
| SnacLogging.ReplayCapturesAll | nilrt_snac/_logging.py:232-247 | with every stream healthy each console shows exactly its own chunks and the log file holds all of them, stdout and stderr interleaved in the order written |
| SnacLogging.RefusingLogWarnsEveryTime | nilrt_snac/_logging.py:59-64 | while the log file refuses every chunk, each chunk is followed on its console by the warning and the run goes on |
| SnacLogging.FullLogRefuses | nilrt_snac/_logging.py:60 | a full log file refuses every non-empty chunk with "No space left on device" |
| SnacLogging.EmitConsoleFails | nilrt_snac/_logging.py:55 | a console that refuses a chunk from `print` or `sys.stderr.write` makes that write raise with no stream changed; a logger record the console refuses is swallowed by the handler's `handleError`, and the body goes on with nothing changed |
| SnacLogging.ReplayKeepsError | nilrt_snac/_logging.py:55 | once a write has raised, later chunks are never written |
| SnacLogging.ConsoleFailureStops | nilrt_snac/_logging.py:55 | a console failure on `print` or `sys.stderr.write` stops the body at once, keeping what earlier chunks wrote; one on a logger record is swallowed, so the body ends as if that record had not been written |
| SnacLogging.ReplaySameFrom | nilrt_snac/_logging.py:232-247 | two runs of the body that leave the streams in the same state stay in the same state after the same later writes |
| SnacLogging.ZeroPadWidth | nilrt_snac/_logging.py:127 | a field below `10^width` is padded to exactly `width` digits |
| SnacLogging.StampShape | nilrt_snac/_logging.py:127 | the timestamp is eight digits, a dash and six digits |
| SnacLogging.FilenameInjective | nilrt_snac/_logging.py:118-128 | two sessions of one command started in different seconds get different file names |
| SnacLogging.StampInjective | nilrt_snac/_logging.py:127 | different valid times give different timestamps |
| SnacLogging.HeaderLayout | nilrt_snac/_logging.py:131-153 | read back line by line the header is the 80-character rule, the title with the command in capitals, the rule, the six facts, the rule, and an empty last line |
| SnacLogging.HeaderLinesLack | nilrt_snac/_logging.py:139-151 | no header line holds a newline of its own |
| SnacLogging.FooterLayout | nilrt_snac/_logging.py:156-171 | read back line by line the footer is an empty line, the rule, the completion time, the exit code and the rule |
| SnacLogging.SavedNotice | nilrt_snac/_logging.py:296-303 | nothing is printed exactly when there is no log path |
| SnacLogging.SavedNoticeLines | nilrt_snac/_logging.py:303 | the notice is a blank line, "Log saved to: " with the path, and the end of the line |
| SnacLogging.Deliver | nilrt_snac/_logging.py:232-247 | one chunk through `sys.stdout`, `sys.stderr` or a logging `StreamHandler` changes the consoles and the log file as one tee write says; its failure is raised unless it came from a logger record |
| SnacLogging.RunBody | nilrt_snac/_logging.py:246-247 | the body's writes change the consoles and the log file as the replay says, up to the first that raises |
| SnacLogging.Handler.constructor | nilrt_snac/_logging.py:239-240 | a handler keeps its kind and stream |
| SnacLogging.StreamHandlers | nilrt_snac/_logging.py:239-240 | exactly the `StreamHandler`s among the handlers, in order |
| SnacLogging.Redirect | nilrt_snac/_logging.py:239-244 | every `StreamHandler` and no other handler points at the target, and each is saved with its former stream |
| SnacLogging.Restore | nilrt_snac/_logging.py:262-267 | each saved handler gets its saved stream back |
| SnacLogging.DirectoryAfter | nilrt_snac/_logging.py:97-106 | the directory ends with mode 0o750, and group `adm` when that group exists |
| SnacLogging.Opened | nilrt_snac/_logging.py:217-220 | an existing file raises `FileExistsError`; otherwise a new empty root-owned file with mode 0o640, unless opening raises |
| SnacLogging.Converted | nilrt_snac/_logging.py:249-260 | an existing file becomes `EX_ERROR`, any other `OSError` `EX_BAD_ENVIRONMENT`, and anything else passes through |
| SnacLogging.Raised | nilrt_snac/_logging.py:246-247 | a write that raised ends the body with its exception; otherwise the body's own |
| SnacLogging.WriteFooter | nilrt_snac/_logging.py:273-280 | one footer attempt: footer write then close, whatever they raise swallowed |
| SnacLogging.Body | nilrt_snac/_logging.py:229-247 | the body starts exactly when the header is accepted |
| SnacLogging.Process.constructor | nilrt_snac/_logging.py:209-212 | the process keeps its streams and handlers |
| SnacLogging.Install | nilrt_snac/_logging.py:232-244 | `sys.stdout` and `sys.stderr` become tees of their consoles into the log file, and every `StreamHandler` points at the stderr tee, saved with its former stream |
| SnacLogging.Uninstall | nilrt_snac/_logging.py:261-271 | the saved handlers get their streams back, the consoles are restored, and no other handler changes |
| SnacLogging.Capture | nilrt_snac/_logging.py:229-271 | consoles and handlers end as they started, and the streams end as the header-then-body run says |
| SnacLogging.LogSession | nilrt_snac/_logging.py:201-293 | an enabled session from the directory on ends as the logged-session value says, with consoles and handlers as at entry |
| SnacLogging.LoggingContext | nilrt_snac/_logging.py:174-293 | on every path the consoles and the handlers' streams are as at entry, and the consoles, log file and file system end as the session value says |
| SnacLogging.DisabledSessionCreatesNothing | nilrt_snac/_logging.py:197-199 | with logging disabled nothing is created or yielded, and the body's exception passes unchanged |
| SnacLogging.SetupFailureCodes | nilrt_snac/_logging.py:201-260 | a directory that cannot be made exits `EX_BAD_ENVIRONMENT`, an existing log file `EX_ERROR`, any other open failure `EX_BAD_ENVIRONMENT`; nothing is yielded or created |
| SnacLogging.SessionTouchesOnlyItsLog | nilrt_snac/_logging.py:201-293 | every file other than the session's log is left as it was |
| SnacLogging.LogFileAttributes | nilrt_snac/_logging.py:217-227 | a created log file is new, has mode 0o640, is root's, belongs to `adm` when that group exists and `fchown` succeeds, and holds what its stream accepted |
| SnacLogging.FooterOnce | nilrt_snac/_logging.py:273-293 | the second footer attempt changes nothing; a file that takes the footer gains it and is closed |
| SnacLogging.ReplayLogGrows | nilrt_snac/_logging.py:59-61 | through the tees the log file only gains text |
| SnacLogging.HeaderFirst | nilrt_snac/_logging.py:229-247 | whenever the session yields, the log file starts with the header |
| SnacLogging.HealthySession | nilrt_snac/_logging.py:174-293 | with every stream healthy and nothing failing, the log path is yielded, each console shows its own chunks, and the closed log file holds the header, every chunk in order and the footer with exit code 0 |
| GenUla.ToBytes | tests/system/gen_ula.py:66-74 | `to_bytes(length, 'big')` succeeds exactly when the value is non-negative and fits, giving `length` bytes |
| GenUla.DigitsValue | tests/system/gen_ula.py:66-74 | the bytes of a value that fits read back as the value |
| GenUla.ToBytesRoundTrip | tests/system/gen_ula.py:66-74 | encoding a value that fits and decoding it gives the value back |
| GenUla.FromBytesRoundTrip | tests/system/gen_ula.py:66-74 | decoding bytes and encoding the value in as many bytes gives the bytes back |
| GenUla.FlipUniversalLocal | tests/system/gen_ula.py:30 | `^ 0x020000` flips bit 17 of the company ID |
| GenUla.FlipTwice | tests/system/gen_ula.py:30 | flipping the universal/local bit twice restores the company ID |
| GenUla.Meui64Layout | tests/system/gen_ula.py:26-31 | for a 48-bit EUI-48 the Modified EUI-64 fits 64 bits, has 0xFFFE in bits 24 to 39, the low 24 bits of the EUI-48, and the company ID with the universal/local bit flipped on top |
| GenUla.Meui64 | tests/system/gen_ula.py:26-31 | for every integer, the low 24 bits are the manufacturer ID of the EUI-48 and bits 24 to 39 are 0xFFFE |
| GenUla.Meui64RoundTrip | tests/system/gen_ula.py:26-31 | the EUI-48 can be recovered from its Modified EUI-64, for every integer |
| GenUla.Meui64Injective | tests/system/gen_ula.py:26-31 | different EUI-48s give different interface identifiers |
| GenUla.NtpSeconds | tests/system/gen_ula.py:65-66 | the NTP seconds fit four bytes exactly from 1900 up to early 2036, and read back as the Unix seconds plus 2208988800 |
| GenUla.NtpStampAsWritten | tests/system/gen_ula.py:57-68 | when the timestamp packs, it is eight bytes |
| GenUla.FractionFits | tests/system/gen_ula.py:67-68 | the 32-bit fraction fits exactly when the nanoseconds are a proper fraction of a second |
| GenUla.FractionOverflowAsWritten | tests/system/gen_ula.py:57-68 | a fraction that rounds up to a whole second, and any negative fraction, make `to_bytes` raise |
| GenUla.NtpStamp | tests/system/gen_ula.py:57-68 | with the nanoseconds carried into the seconds, it packs exactly when the seconds are in NTP era 0, as the NTP seconds and the 32-bit fraction |
| GenUla.NtpStampAgrees | tests/system/gen_ula.py:57-68 | wherever the code as written packs the timestamp, the corrected stamp gives the same bytes |
| GenUla.LastFive | tests/system/gen_ula.py:73 | `d[-5:]`: the last five bytes of the digest, or all of a shorter one |
| GenUla.InterfaceOfBytes | tests/system/gen_ula.py:75 | exactly sixteen bytes make an address, which reads back as those bytes, under the given prefix length |
| GenUla.UniqueLocal | tests/system/gen_ula.py:33-75 | succeeds exactly when the timestamp is in NTP era 0, the interface ID fits 64 bits, the subnet ID 16 bits and the digest has five bytes; a wide subnet ID raises, and a negative one raises "can't convert negative int to unsigned" |
| GenUla.UniqueLocalLayout | tests/system/gen_ula.py:73-75 | a generated address is fd, the global ID, the subnet ID and the interface ID, under prefix length 64 |
| GenUla.DistinctInterfacesDistinctAddresses | tests/system/gen_ula.py:26-75 | two interfaces with different EUI-48s never get the same address |
| GenUla.NetworkOf | tests/system/gen_ula.py:22 | the host bits are cleared: a valid network of the given length that contains the address |
| GenUla.RoundDown | tests/system/gen_ula.py:22 | the largest multiple not above the number |
| GenUla.DisjointOr | tests/system/gen_ula.py:30 | `a \| b` is `a + b` when `b` lies in the low bits `a` leaves clear |
| GenUla.OnNetworkAsWritten | tests/system/gen_ula.py:80-83 | as written, a negative ID is refused, and a 64-bit ID on a network whose low 64 bits are clear is added to the network address |
| GenUla.InterfaceIdFits | tests/system/gen_ula.py:83 | ORing a 64-bit ID into such a network adds it and stays below 2**128 |
| GenUla.LongPrefixLeavesNetwork | tests/system/gen_ula.py:80-83 | on fd00::/96 the address made from any EUI-48 as written lies outside the network |
| GenUla.InsideNetwork | tests/system/gen_ula.py:80-83 | a 64-bit interface ID on a network of prefix length at most 64 keeps the network and the ID |
| GenUla.OnNetwork | tests/system/gen_ula.py:80-83 | succeeds exactly when the prefix leaves 64 bits and the ID fits them; the address is then on the network with the ID as its low 64 bits |
| GenUla.OnNetworkAgrees | tests/system/gen_ula.py:80-83 | wherever the prefix leaves 64 bits and the ID fits, the corrected address is the one written |
| GenUla.DigitValue | tests/system/gen_ula.py:12 | a digit value below 16, or -1 for a non-digit |
| GenUla.ParseAuto | tests/system/gen_ula.py:19 | `int(x, 0)`: a number read is non-empty once the whitespace `int()` skips is trimmed, holds no whitespace inside, and starts with `-` when negative |
| GenUla.ParseHex | tests/system/gen_ula.py:12 | `int(x, 16)`: the same for a hexadecimal number |
| GenUla.ParseEui48 | tests/system/gen_ula.py:12 | `--eui48` is read as `int()` reads the text with its colons removed, in base 16 when it had colons |
| Text.TrimInt | tests/system/gen_ula.py:12-19 | what is left after trimming neither starts nor ends with whitespace `int()` skips, and is no longer than the text |
| GenUla.GroupedValue | tests/system/gen_ula.py:12-19 | digits have a value exactly when underscores only separate them: none first, none last, none doubled |
| GenUla.ParseAutoDecimal | tests/system/gen_ula.py:19 | a decimal number as Python writes it is read back as itself |
| GenUla.ParseAutoNegative | tests/system/gen_ula.py:19 | a `-` in front negates the number, so `--subnet -1` is read as -1 |
| GenUla.ParseAutoPositive | tests/system/gen_ula.py:19 | a `+` in front keeps the number |
| GenUla.ParseAutoPadded | tests/system/gen_ula.py:19 | whitespace around the number is ignored, so `--subnet " 5"` is read as 5 |
| GenUla.ParseAutoLeadingZero | tests/system/gen_ula.py:19 | a leading zero is accepted only in front of zero: `00` is 0 and `07` is refused |
| GenUla.ParseAutoUnderscore | tests/system/gen_ula.py:19 | an underscore between decimal digits changes nothing: `1_000` is read as `1000` |
| GenUla.ParseHexDigits | tests/system/gen_ula.py:12 | plain hexadecimal digits are read back as their value |
| GenUla.NegativeSubnetRaises | tests/system/gen_ula.py:19-74 | a negative `--subnet` is accepted by the parser and then makes `subnet.to_bytes` raise OverflowError |
| GenUla.HexPair | tests/system/gen_ula.py:12 | a byte as two hexadecimal digits reading back as its high and low halves |
| GenUla.Hex | tests/system/gen_ula.py:12 | bytes as twice as many hexadecimal digits |
| GenUla.ColonsRemoved | tests/system/gen_ula.py:12 | removing the colons of the usual notation leaves the hexadecimal digits |
| GenUla.HexValue | tests/system/gen_ula.py:12 | the hexadecimal digits of bytes read back as their value |
| GenUla.ParseFormatted | tests/system/gen_ula.py:12 | an EUI-48 written as `xx:xx:xx:xx:xx:xx` parses back as itself |
| GenUla.AddressFor | tests/system/gen_ula.py:79-85 | on `--network` the address keeps the network's prefix with the ID as its low bits; otherwise it is an fd /64 ending in the ID |
| GenUla.Generate | tests/system/gen_ula.py:9-86 | a bad `--eui48` or `--subnet` is a usage error; a generated address carries the interface ID of the given EUI-48 as described for each mode |
| Wireguard.Reprs | tests/system/wireguard_fixture/wireguard.py:53 | each network's `repr`, in order |
| Wireguard.TupleText | tests/system/wireguard_fixture/wireguard.py:53 | `str` of a tuple starts with an opening parenthesis |
| Wireguard.Chars | tests/system/wireguard_fixture/wireguard.py:53 | iterating over a text gives its characters one by one |
| Wireguard.ListItems | tests/system/wireguard_fixture/wireguard.py:53 | a list value is read as one item per comma-separated piece |
| Wireguard.AllowedIpsAsWritten | tests/system/wireguard_fixture/wireguard.py:53 | as written the value starts with the opening parenthesis of the tuple's text |
| Wireguard.AllowedIps | tests/system/wireguard_fixture/wireguard.py:53 | the corrected value reads back as the networks, in order, when there is at least one and none holds a comma or surrounding whitespace |
| Wireguard.AllowedIpsAsWrittenUnreadable | tests/system/wireguard_fixture/wireguard.py:53 | as written, the first item read from the AllowedIPs value is `(` whatever the networks |
| Wireguard.AllowedIpsReadBack | tests/system/wireguard_fixture/wireguard.py:53 | the corrected AllowedIPs value reads back as the networks themselves, in order |
| Wireguard.AddressLinesAt | tests/system/wireguard_fixture/wireguard.py:44-45 | one `Address` line per address, in order |
| Wireguard.AddressLinesAppend | tests/system/wireguard_fixture/wireguard.py:44-45 | one more address adds its line at the end |
| Wireguard.PeerSection | tests/system/wireguard_fixture/wireguard.py:50-53 | three lines: the `[Peer]` heading after a blank line, then `PublicKey = ` with the key |
| Wireguard.PeerAllowedIps | tests/system/wireguard_fixture/wireguard.py:53 | the third line is `AllowedIPs = ` followed by a value that reads back as the peer's networks |
| Wireguard.PeerLines | tests/system/wireguard_fixture/wireguard.py:50-53 | three lines per peer |
| Wireguard.PeerLinesSection | tests/system/wireguard_fixture/wireguard.py:50-53 | the lines of the i-th peer are the i-th group of three |
| Wireguard.PeerLinesAppend | tests/system/wireguard_fixture/wireguard.py:50-53 | the lines of one more peer follow those of the peers before it |
| Wireguard.InterfaceLayout | tests/system/wireguard_fixture/wireguard.py:43-48 | the `[Interface]` heading, the addresses, the private key (`None` when missing), then the listen port only when set |
| Wireguard.ConfigLayout | tests/system/wireguard_fixture/wireguard.py:42-54 | the `[Interface]` section, then three lines per peer in the order added |
| Wireguard.ListenPortOnlyWhenSet | tests/system/wireguard_fixture/wireguard.py:47-48 | a `ListenPort` line is written exactly when the port is set and not 0, and then only once |
| Wireguard.QuickConfig.constructor | tests/system/wireguard_fixture/wireguard.py:28-37 | the configuration keeps its addresses, port and key, and starts with no peer |
| Wireguard.QuickConfig.AddPeer | tests/system/wireguard_fixture/wireguard.py:39-40 | one more peer at the end; nothing else changes |
| Wireguard.QuickConfig.Render | tests/system/wireguard_fixture/wireguard.py:42-54 | the lines of the configuration joined with newlines |
| Wireguard.AddPeerAppendsSection | tests/system/wireguard_fixture/wireguard.py:39-54 | adding a peer adds its three lines at the end and changes no other line |
| Wireguard.OptionNameInjective | tests/system/wireguard_fixture/wireguard.py:96-104 | different options have different names on the command line |
| Wireguard.OptionsFrom | tests/system/wireguard_fixture/wireguard.py:96-104 | the options come as name-value pairs |
| Wireguard.PeerArgs | tests/system/wireguard_fixture/wireguard.py:96-104 | the public key comes first, followed by name-value pairs |
| Wireguard.OptionsFromRead | tests/system/wireguard_fixture/wireguard.py:96-104 | reading back the words of distinct options gives each listed option's value if set, and none otherwise |
| Wireguard.PeerArgsReadBack | tests/system/wireguard_fixture/wireguard.py:96-104 | each option carries its value and is present only when set, in the order allowed-ips, persistent-keepalive, endpoint, preshared-key |
| Wireguard.SetArgs | tests/system/wireguard_fixture/wireguard.py:96-104 | the arguments built option by option are the public key and the options that are set |
| Wireguard.CheckReturncode | tests/system/wireguard_fixture/wireguard.py:106 | raises exactly when the exit status is not 0 |
| Wireguard.ClientAddPeer | tests/system/wireguard_fixture/wireguard.py:87-106 | runs `wg set <tunnel> peer` with the arguments, and fails with `CalledProcessError` exactly when the exit status is not 0 |
| Wireguard.WgSetCommandWords | tests/system/wireguard_fixture/wireguard.py:105 | with no spaces in the tunnel name or arguments, the shell splits the command back into `wg`, `set`, the tunnel, `peer` and the arguments |
| Wireguard.AddPeerCommandWords | tests/system/wireguard_fixture/wireguard.py:96-105 | the public key is the fifth word of the command and the options follow |
| Wireguard.Quoted | tests/system/wireguard_fixture/wireguard.py:267-268 | one quoted word per argument |
| Wireguard.UnquoteQuoted | tests/system/wireguard_fixture/wireguard.py:267-268 | a list of arguments without double quotes is read back by the shell word for word |
| Wireguard.QuoteInsideArgumentSplits | tests/system/wireguard_fixture/wireguard.py:267-268 | an argument holding a double quote is not escaped, so the shell reads it as two words |
| Wireguard.PeerKeys | tests/system/wireguard_fixture/wireguard.py:183-189 | no more keys than lines |
| Wireguard.PeerKeysClean | tests/system/wireguard_fixture/wireguard.py:184-188 | every key read is non-empty with no whitespace at either end |
| Wireguard.GetPeers | tests/system/wireguard_fixture/wireguard.py:178-189 | a non-zero exit status raises; otherwise the stripped non-empty lines of the output, in order |
| Wireguard.KeepPeerKeys | tests/system/wireguard_fixture/wireguard.py:183-189 | the loop's list is exactly the stripped non-empty lines, in order |
| Wireguard.NonEmptyKept | tests/system/wireguard_fixture/wireguard.py:185-188 | every key kept is non-empty and is one of the stripped lines |
| Wireguard.SplitTerminated | tests/system/wireguard_fixture/wireguard.py:184 | keys written one per line split back into the keys |
| Wireguard.CleanKeysKept | tests/system/wireguard_fixture/wireguard.py:184-188 | clean keys are all kept as they are |
| Wireguard.GetPeersReadsBack | tests/system/wireguard_fixture/wireguard.py:178-189 | keys listed one per line are read back as they are, in order |
| Wireguard.GuessPlatform | tests/system/wireguard_fixture/wireguard.py:195-209 | a remote host is "windows" exactly when the probe exits with a positive status and "linux" otherwise; a local one reports the lower-cased system name |

## Left out

- Real I/O is not modelled directly. Files, modes and owners live in the `Host.FileSystem` class. Each subprocess (opkg, firewall-cmd, nirtcfg, systemctl, update-rc.d, rmmod, passwd, wget, nslookup, wg, SSH) is a recorded command line whose exit code and output are inputs.
- `input()`, the host name, the platform name and the clock are inputs too.
- `print` and logger messages are modelled only as the error and warning lists a step returns. Their exact console formatting is not modelled.
- Python regular expressions are not modelled in general. Only patterns whose single metacharacter is `.` are searched exactly. The `src.*/extra/.*` check and the `^...$` multiline substitutions are written as the line predicates they amount to.
- `Text.Upper` and `Text.Lower` map ASCII letters only. Python's full Unicode case mapping is not modelled.
- The steps of `configure` and `verify` in `nilrt_snac/__main__.py` are abstract outcomes. `argparse` is not modelled, and neither is the prerequisite probing of `nilrt_snac/_pre_reqs.py`, which is an outcome as well.
- `nilrt_snac/_configs/_wireguard_config.py`, `_console_config.py`, `_syslog_ng_config.py` and `_pwquality_config.py` are not part of this model. They are thin wrappers over downloads, key generation, init scripts and a back-reference substitution.
- `_common._cmd` is not part of this model. It relies on a `run_with_logging` that `nilrt_snac/_logging.py` does not define.
- Group creation and ownership lookups go through the group and password databases. They are modelled as a table from names to ids.
- ClamAV: the `chown`/`chmod` of the `/var/lib/clamav` directory and its 0o777 fallback are not modelled, because directories are not modelled. A `resolv.conf` symlink that points to another link or to a directory is not modelled either.
- The large embedded texts (clamd and freshclam configurations, the wrapper script, the alert template) are constants. Only the lines the checks look for are reasoned about.
- Logging:
  - `_TeeStream`'s delegation of `isatty`, `encoding` and `errors` is not modelled.
  - The umask's effect on the 0o640 log mode is not modelled.
  - The logger warning for a missing `adm` group is not modelled.
  - `sys.stdout` and `sys.stderr` are required to be distinct streams.
  - Nested log sessions and partial writes are not modelled. A write is accepted whole or refused.
  - Partly created directories are not modelled.
  - The two timestamps are inputs.
- `SnacLogging.LoggingContext`: the body is abstract, a list of writes followed by an optional exception, because the command line shown never wraps itself in a log session.
- gen_ula: the SHA-256 digest is a function parameter. Splitting the float timestamp into seconds and nanoseconds is an input. Parsing the `--network` text into an `IPv6Network` is not modelled, and neither are the error message texts.
- wireguard: the subprocesses, local or over SSH, are not modelled. Neither are the fixture's other `WireguardClient` methods, the polling in `wait_on_interface`, or the fixture's `__main__.py`. The platform system name is a parameter.
- Opkg.OpkgHelper.Install: requires the dry-run flag to be set whenever the package is absent. In the code an unset flag raises AttributeError there. That outcome is modelled separately, as the failed install in `ClamAvConfig.UnsetHelperInstallsNothing`.
- Opkg.OpkgHelper.Remove: requires the dry-run flag to be set whenever a command would run, for the same reason.
- ClamAvConfig.Examine: diagnoses with the corrected `ClamAvConfig.Diagnose` of the first Findings row, so a dangling `resolv.conf` link is found and removed. As written it is reported missing and kept, as `ClamAvConfig.DiagnoseAsWritten` and `ClamAvConfig.DanglingLinkKeptAsWritten` show.
- ClamAvConfig.FixDns: repairs as the corrected diagnosis of the first Findings row says. As written a dangling link is not unlinked, and the restore writes through it.
- Cli.RunMain: sets both helpers' dry-run flags, the corrected set-up `Cli.PrepareHelpers` of the second Findings row. As written `nilrt_snac/__main__.py:125` sets only the older helper's flag, as `Cli.PrepareHelpersAsWritten` and `Cli.AsWrittenLeavesHelperUnset` show.
- CryptSetupConfig.Configure, SysApiConfig.Configure, X11Config.Configure, NiAuthConfig.RemoveAuthPackages, NiAuthConfig.Configure, NtpConfig.Configure, TmuxConfig.Configure, GraphicalConfig.RemoveGraphicalPackages, GraphicalConfig.Configure, FirewallConfig.Configure, FirewallConfig.Install, AuditdConfig.SetUpAlerts, AuditdConfig.RecordAddress, AuditdConfig.RecordAndSave, AuditdConfig.ApplyAddress and AuditdConfig.Configure: each requires the newer helper's dry-run flag to be set whenever it would install or remove a package. Their contracts therefore describe the intended set-up of the second Findings row only. Under `nilrt_snac/__main__.py:125` as written that flag is never set, and the install or removal raises AttributeError instead; that outcome is modelled only for ClamAV, by `ClamAvConfig.UnsetHelperInstallsNothing`.
- GenUla.UniqueLocal: hashes the corrected timestamp `GenUla.NtpStamp` of the fourth Findings row, which carries a full second into the seconds. As written a fraction that rounds up to a whole second, or a time with a negative fractional part (`--time -0.5`; a whole negative time such as `-1.0` is fine), raises OverflowError (`GenUla.FractionOverflowAsWritten`). Wherever the code as written succeeds, both give the same bytes (`GenUla.NtpStampAgrees`).
- GenUla.AddressFor: on `--network` uses the corrected `GenUla.OnNetwork` of the third Findings row, which refuses a prefix longer than 64 bits. As written the ID is ORed over the network bits (`GenUla.OnNetworkAsWritten`, `GenUla.LongPrefixLeavesNetwork`).
- GenUla.Generate: builds on `GenUla.AddressFor` and `GenUla.UniqueLocal`, so it carries the corrections of the third and fourth Findings rows.
- GenUla.ParseAuto: non-ASCII decimal digits, which `int()` converts to their values, are refused.
- GenUla.ParseHex: non-ASCII decimal digits are refused, as for `GenUla.ParseAuto`.
- FirewallConfig.IsIntLiteral, FirewallConfig.Verify, FirewallConfig.ValidChecksEveryTarget: a pid written in non-ASCII decimal digits, which `int()` converts, is counted as no pid.
- Wireguard.PeerSection: writes the corrected AllowedIPs value `Wireguard.AllowedIps` of the fifth Findings row. As written the value is the characters of the tuple's text, joined (`Wireguard.AllowedIpsAsWritten`).
- Wireguard.ConfigLayout: lays out peer sections carrying the corrected AllowedIPs value of the fifth Findings row.
- Wireguard.QuickConfig.Render: renders peer sections carrying the corrected AllowedIPs value of the fifth Findings row.
- SnacLogging.Emit: a logger record the console refuses is dropped. The traceback that `logging.Handler.handleError` then prints to `sys.stderr` is not modelled.
- ConfigFiles.ConfigFile.constructor: keeps the text as stored. `Path.read_text` reads in text mode, which turns `\r\n` and a bare `\r` into `\n`. So for a file with carriage returns, the lines that `ConfigFiles.ConfigFile.Get`, `ConfigFiles.ConfigFile.ContainsExact` and the `verify` and `configure` steps built on them see differ, and `ConfigFiles.ConfigFile.Save` does not rewrite such line ends as `\n`. `Common.GetDistro` and `ClamAvConfig.BackupDns` do apply the translation.
- AuditdConfig.MailLine: the `action_mail_acct` rewrite is modelled line by line. In `^action_mail_acct\s*=.*$` the `\s*` can also cross newlines, so a line that is `action_mail_acct` with only blanks after it, followed by whitespace-only lines and a line whose first non-blank character is `=`, is merged into one setting. That case is not modelled by `AuditdConfig.MailConfigured`.

## Findings

| source | as written | input that shows it | evidently intended | confidence | as-written member | corrected member |
|---|---|---|---|---|---|---|
| nilrt_snac/_configs/_clamav_config.py:405-411 | a symlink check that follows an existence test; `os.path.exists` is False for a dangling link, so the broken-link branch is never taken | `/etc/resolv.conf` a symlink to a missing file: the code backs up nothing and writes through the dangling link | a dangling `resolv.conf` link is unlinked and replaced by a regular file | not executed | ClamAvConfig.DanglingLinkKeptAsWritten | ClamAvConfig.Diagnose |
| nilrt_snac/__main__.py:125 | `set_dry_run` is called only on the `nilrt_snac.OpkgHelper` helper | any `configure` whose first step installs or removes through `nilrt_snac.opkg`: its helper has no `_dry_run`, and the access raises AttributeError | both helpers are told whether the run is a dry run | not executed | Cli.AsWrittenLeavesHelperUnset | Cli.PrepareHelpers |
| tests/system/gen_ula.py:80-83 | the address is `network_address OR meui64`, whatever the prefix length | `--network fd00::/96`: the interface bits above bit 32 land outside the network | the generated address lies on the given network | not executed | GenUla.LongPrefixLeavesNetwork | GenUla.OnNetwork |
| tests/system/gen_ula.py:57-68 | the fraction is `floor(ns * 2^32 / 10^9)`, with `ns` from rounding the fractional part | `--time 0.9999999999` (ns rounds to 10^9) or a negative fractional part such as `--time -0.5` (ns is -5 * 10^8): `to_bytes(4)` raises OverflowError | the NTP timestamp of any representable time, carrying a full second into the seconds | not executed | GenUla.FractionOverflowAsWritten | GenUla.NtpStamp |
| tests/system/wireguard_fixture/wireguard.py:53 | `", ".join(str(peer.allowed_ips))` joins the characters of the tuple's text | one peer allowed `10.0.0.0/24`: the line reads `AllowedIPs = (, I, P, v, 4, ...` | the networks' texts joined by `", "` | not executed | Wireguard.AllowedIpsAsWrittenUnreadable | Wireguard.AllowedIps |
