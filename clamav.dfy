/**
 * `_ClamAVConfig`: installs the ClamAV packages when none of them is present,
 * repairs `/etc/resolv.conf` after such an installation, writes the freshclam
 * and clamd configurations and the `clamav-scan` wrapper, and checks the two
 * configurations in `verify`.
 *
 * Symbolic links matter to the DNS repair, so besides the regular files of a
 * `Host.FileSystem` this module keeps a table of links (`Symlinks`). A link
 * points at a path that is a regular file or at nothing; links to links and
 * directories are not modelled.
 */
module ClamAvConfig {
  import opened Wrappers
  import opened Text
  import opened SnacErrors
  import opened Host
  import opened Opkg

  const ClamdConfPath := "/etc/clamav/clamd.conf"
  const FreshclamConfPath := "/etc/clamav/freshclam.conf"
  const FreshclamLog := "/var/lib/clamav/freshclam.log"
  const FreshclamLogText := "# ClamAV freshclam log file\n"
  const WrapperPath := "/usr/local/bin/clamav-scan"
  const ResolvConf := "/etc/resolv.conf"
  const ResolvBackup := "/etc/resolv.conf.nilrt-backup"
  const ClamAv := "clamav"

  /** `package_names`, in the order they are tried. */
  const Packages: seq<string> := ["clamav", "clamav-daemon", "clamav-freshclam"]

  // ---------------------------------------------------------------------------
  // The installed-package filter
  // ---------------------------------------------------------------------------

  /** `[pkg for pkg in names if is_installed(pkg)]`. */
  function InstalledOf(installed: seq<string>, names: seq<string>): (r: seq<string>)
    ensures |r| <= |names|
    ensures forall p :: p in r <==> p in names && p in installed
  {
    if |names| == 0 then []
    else (if names[0] in installed then [names[0]] else []) + InstalledOf(installed, names[1..])
  }

  /** The filter keeps the order of the names: filtering a concatenation filters each part. */
  lemma {:induction false} InstalledOfAppend(installed: seq<string>, a: seq<string>, b: seq<string>)
    ensures InstalledOf(installed, a + b) == InstalledOf(installed, a) + InstalledOf(installed, b)
  {
    if |a| == 0 {
      assert a + b == b;
    } else {
      assert (a + b)[0] == a[0] && (a + b)[1..] == a[1..] + b;
      InstalledOfAppend(installed, a[1..], b);
    }
  }

  // ---------------------------------------------------------------------------
  // verify
  // ---------------------------------------------------------------------------

  /** A file in the signature directory, with its size in bytes. */
  datatype DbEntry = DbEntry(name: string, size: nat)

  /** What `verify` finds in `/var/lib/clamav/`; it only ever warns about it. */
  datatype SignatureReport = NoDatabaseDir | NoSignatureFiles | AllSignaturesEmpty | SignaturesFound(count: nat)

  /** `glob(suffix)` for a pattern `*suffix`, in directory order. */
  function Matching(entries: seq<DbEntry>, suffix: string): (r: seq<DbEntry>)
    ensures forall e :: e in r <==> e in entries && EndsWith(e.name, suffix)
  {
    if |entries| == 0 then []
    else (if EndsWith(entries[0].name, suffix) then [entries[0]] else []) + Matching(entries[1..], suffix)
  }

  /** The files that are not empty. */
  function NonEmpty(entries: seq<DbEntry>): (r: seq<DbEntry>)
    ensures forall e :: e in r <==> e in entries && e.size > 0
  {
    if |entries| == 0 then []
    else (if entries[0].size > 0 then [entries[0]] else []) + NonEmpty(entries[1..])
  }

  /** The `*.cvd` files, then the `*.cld` files. */
  function SignatureFiles(entries: seq<DbEntry>): seq<DbEntry> {
    Matching(entries, ".cvd") + Matching(entries, ".cld")
  }

  /** A file `verify` takes for a signature database. */
  predicate IsSignatureFile(e: DbEntry) {
    EndsWith(e.name, ".cvd") || EndsWith(e.name, ".cld")
  }

  /** How many entries of the listing are signature files that are not empty. */
  function CountUsable(entries: seq<DbEntry>): (n: nat)
    ensures n <= |entries|
    ensures n > 0 <==> exists e :: e in entries && IsSignatureFile(e) && e.size > 0
  {
    if |entries| == 0 then 0
    else
      assert forall e :: e in entries <==> e == entries[0] || e in entries[1..];
      (if IsSignatureFile(entries[0]) && entries[0].size > 0 then 1 else 0) + CountUsable(entries[1..])
  }

  /** Keeping the non-empty files distributes over concatenation. */
  lemma {:induction false} NonEmptyAppend(a: seq<DbEntry>, b: seq<DbEntry>)
    ensures NonEmpty(a + b) == NonEmpty(a) + NonEmpty(b)
  {
    if |a| == 0 {
      assert a + b == b;
    } else {
      assert (a + b)[0] == a[0] && (a + b)[1..] == a[1..] + b;
      NonEmptyAppend(a[1..], b);
    }
  }

  /** The non-empty `*.cvd` and `*.cld` files together are the usable entries: no name ends in both. */
  lemma {:induction false} UsableCount(entries: seq<DbEntry>)
    ensures |NonEmpty(SignatureFiles(entries))| == CountUsable(entries)
  {
    NonEmptyAppend(Matching(entries, ".cvd"), Matching(entries, ".cld"));
    UsableCountBySuffix(entries);
  }

  /** The two globs' non-empty files, counted one entry at a time. */
  lemma {:induction false} UsableCountBySuffix(entries: seq<DbEntry>)
    ensures |NonEmpty(Matching(entries, ".cvd"))| + |NonEmpty(Matching(entries, ".cld"))| == CountUsable(entries)
  {
    if |entries| > 0 {
      var e := entries[0];
      UsableCountBySuffix(entries[1..]);
      NonEmptyAppend(if EndsWith(e.name, ".cvd") then [e] else [], Matching(entries[1..], ".cvd"));
      NonEmptyAppend(if EndsWith(e.name, ".cld") then [e] else [], Matching(entries[1..], ".cld"));
      if EndsWith(e.name, ".cvd") {
        assert e.name[|e.name| - 2] == 'v';
      }
    }
  }

  /** The signature part of `verify`, given the directory's listing or `None` when it is missing. */
  function Signatures(db: Option<seq<DbEntry>>): (r: SignatureReport)
    ensures r == NoDatabaseDir <==> db.None?
    ensures r == NoSignatureFiles <==>
      db.Some? && forall e :: e in db.value ==> !IsSignatureFile(e)
    ensures r == AllSignaturesEmpty <==>
      db.Some? && (exists e :: e in db.value && IsSignatureFile(e)) &&
      forall e :: e in db.value && IsSignatureFile(e) ==> e.size == 0
    ensures r.SignaturesFound? <==> db.Some? && exists e :: e in db.value && IsSignatureFile(e) && e.size > 0
    ensures r.SignaturesFound? ==> r.count == CountUsable(db.value)
  {
    if db.None? then NoDatabaseDir
    else
      var files := SignatureFiles(db.value);
      assert forall e :: e in files <==> e in db.value && IsSignatureFile(e);
      if |files| == 0 then NoSignatureFiles
      else
        var valid := NonEmpty(files);
        assert files[0] in files;
        if |valid| == 0 then AllSignaturesEmpty
        else
          assert valid[0] in valid;
          UsableCount(db.value);
          SignaturesFound(|valid|)
  }

  /** A configuration `verify` accepts: present and not zero bytes long. */
  predicate ConfigPresent(files: map<string, FileEntry>, path: string) {
    path in files && files[path].content != ""
  }

  /** What `verify` returns: nothing installed, or both configurations present. */
  predicate Valid(installed: seq<string>, files: map<string, FileEntry>) {
    InstalledOf(installed, Packages) == []
    || (ConfigPresent(files, ClamdConfPath) && ConfigPresent(files, FreshclamConfPath))
  }

  /**
   * `verify`: with no ClamAV package installed it passes without looking at
   * anything else. Otherwise each configuration that is missing or empty
   * fails it; the signature directory is examined and reported, but whatever
   * it holds never changes the result.
   */
  method Verify(opkg: OpkgHelper, fs: FileSystem, db: Option<seq<DbEntry>>)
    returns (valid: bool, report: Option<SignatureReport>)
    ensures valid <==> Valid(opkg.installed, fs.files)
    ensures report == (if InstalledOf(opkg.installed, Packages) == [] then None else Some(Signatures(db)))
  {
    var found := InstalledOf(opkg.installed, Packages);
    if found == [] {
      return true, None;
    }
    valid := true;
    if !fs.Exists(ClamdConfPath) {
      valid := false;
    } else if fs.files[ClamdConfPath].content == "" {
      valid := false;
    }
    if !fs.Exists(FreshclamConfPath) {
      valid := false;
    } else if fs.files[FreshclamConfPath].content == "" {
      valid := false;
    }
    report := Some(Signatures(db));
  }

  /** Any one of the packages is enough for `verify` to look at the configurations. */
  lemma AnyPackageTriggersChecks(installed: seq<string>, files: map<string, FileEntry>, pkg: string)
    requires pkg in Packages && pkg in installed
    ensures Valid(installed, files) <==> ConfigPresent(files, ClamdConfPath) && ConfigPresent(files, FreshclamConfPath)
  {
    assert pkg in InstalledOf(installed, Packages);
  }

  // ---------------------------------------------------------------------------
  // Installing the packages
  // ---------------------------------------------------------------------------

  /** The commands started and the helper's list after a run of install attempts. */
  datatype Progress = Progress(ran: seq<seq<string>>, installed: seq<string>)

  /**
   * One `opkg_helper.install(pkg)` whose failure is caught and logged. A
   * helper whose dry-run flag was never set raises AttributeError as soon as
   * it reads it, before starting anything.
   */
  function Attempt(shell: Shell, installed: seq<string>, pkg: string, dryRun: Option<bool>): (p: Progress)
    ensures pkg in installed || dryRun.None? ==> p == Progress([], installed)
  {
    if pkg in installed || dryRun.None? then Progress([], installed)
    else
      var e := InstallEffect(shell, installed, pkg, false, dryRun);
      Progress(e.ran, e.installed)
  }

  /** The install loop: every package is attempted in turn, whatever became of the ones before. */
  function AttemptAll(shell: Shell, installed: seq<string>, pkgs: seq<string>, dryRun: Option<bool>): Progress
    decreases |pkgs|
  {
    if |pkgs| == 0 then Progress([], installed)
    else
      var first := Attempt(shell, installed, pkgs[0], dryRun);
      var rest := AttemptAll(shell, first.installed, pkgs[1..], dryRun);
      Progress(first.ran + rest.ran, rest.installed)
  }

  /** Attempts only ever add to the list, and only the packages attempted. */
  lemma {:induction false} AttemptAllKeeps(shell: Shell, installed: seq<string>, pkgs: seq<string>, dryRun: Option<bool>)
    ensures forall p :: p in installed ==> p in AttemptAll(shell, installed, pkgs, dryRun).installed
    ensures forall p :: p in AttemptAll(shell, installed, pkgs, dryRun).installed ==> p in installed || p in pkgs
    decreases |pkgs|
  {
    if |pkgs| > 0 {
      var first := Attempt(shell, installed, pkgs[0], dryRun);
      assert forall p :: p in first.installed ==> p in installed || p == pkgs[0];
      AttemptAllKeeps(shell, first.installed, pkgs[1..], dryRun);
      assert forall p :: p in pkgs[1..] ==> p in pkgs;
    }
  }

  /**
   * A failed install does not stop the loop: with the helper's flag set, a
   * package ends up listed exactly when it already was, the run is dry, or
   * its own `opkg install` succeeds.
   */
  lemma {:induction false} EachPackageAttempted(shell: Shell, installed: seq<string>, pkgs: seq<string>, dryRun: Option<bool>)
    requires dryRun.Some?
    ensures forall p :: p in pkgs ==>
      (p in AttemptAll(shell, installed, pkgs, dryRun).installed <==>
        p in installed || dryRun.value || shell.Outcome(InstallCommand(p, false), true).Ok?)
    decreases |pkgs|
  {
    if |pkgs| > 0 {
      var pkg := pkgs[0];
      var first := Attempt(shell, installed, pkg, dryRun);
      if pkg !in installed {
        var e := InstallEffect(shell, installed, pkg, false, dryRun);
        assert dryRun == Some(dryRun.value);
        assert first.installed == e.installed;
      }
      assert pkg in first.installed <==> pkg in installed || dryRun.value || shell.Outcome(InstallCommand(pkg, false), true).Ok?;
      assert forall p :: p in installed ==> p in first.installed;
      assert forall p :: p != pkg && p in first.installed ==> p in installed;
      EachPackageAttempted(shell, first.installed, pkgs[1..], dryRun);
      AttemptAllKeeps(shell, first.installed, pkgs[1..], dryRun);
      assert forall p :: p in pkgs ==> p == pkg || p in pkgs[1..];
    }
  }

  /** A helper whose dry-run flag was never set installs nothing and starts nothing. */
  lemma {:induction false} UnsetHelperInstallsNothing(shell: Shell, installed: seq<string>, pkgs: seq<string>)
    ensures AttemptAll(shell, installed, pkgs, None) == Progress([], installed)
    decreases |pkgs|
  {
    if |pkgs| > 0 {
      UnsetHelperInstallsNothing(shell, installed, pkgs[1..]);
    }
  }

  /** The first attempt, then the rest. */
  lemma AttemptStep(shell: Shell, history: seq<seq<string>>, installed: seq<string>, pkgs: seq<string>, dryRun: Option<bool>)
    requires |pkgs| >= 1
    ensures var first := Attempt(shell, installed, pkgs[0], dryRun);
      var rest := AttemptAll(shell, first.installed, pkgs[1..], dryRun);
      history + AttemptAll(shell, installed, pkgs, dryRun).ran == (history + first.ran) + rest.ran
      && AttemptAll(shell, installed, pkgs, dryRun).installed == rest.installed
  {
    var first := Attempt(shell, installed, pkgs[0], dryRun);
    var rest := AttemptAll(shell, first.installed, pkgs[1..], dryRun);
    assert AttemptAll(shell, installed, pkgs, dryRun) == Progress(first.ran + rest.ran, rest.installed);
    RanAssoc(history, first.ran, rest.ran);
  }

  lemma RanAssoc(a: seq<seq<string>>, b: seq<seq<string>>, c: seq<seq<string>>)
    ensures a + (b + c) == (a + b) + c
  {
  }

  /**
   * `_install_clamav_packages` after the DNS backup: `opkg update`, whose
   * failure is logged and re-raised, then one attempt per package.
   */
  method InstallPackages(shell: Shell, opkg: OpkgHelper) returns (r: Result<(), Failure>)
    modifies shell, opkg
    ensures opkg.dryRun == old(opkg.dryRun)
    ensures r.Ok? <==> RunOutcome(shell, ["update"]).Ok?
    ensures r.Err? ==> r.error == RunOutcome(shell, ["update"]).error
    ensures r.Err? ==> shell.ran == old(shell.ran) + [["opkg", "update"]] && opkg.installed == old(opkg.installed)
    ensures r.Ok? ==> var p := AttemptAll(shell, old(opkg.installed), Packages, opkg.dryRun);
      shell.ran == old(shell.ran) + [["opkg", "update"]] + p.ran && opkg.installed == p.installed
  {
    r := opkg.Update(shell);
    if r.Err? {
      return;
    }
    AttemptEach(shell, opkg, Packages);
  }

  /** The loop of `_install_clamav_packages`: one caught attempt per package. */
  method AttemptEach(shell: Shell, opkg: OpkgHelper, pkgs: seq<string>)
    modifies shell, opkg
    ensures opkg.dryRun == old(opkg.dryRun)
    ensures var p := AttemptAll(shell, old(opkg.installed), pkgs, opkg.dryRun);
      shell.ran == old(shell.ran) + p.ran && opkg.installed == p.installed
  {
    ghost var start := shell.ran;
    ghost var installed0 := opkg.installed;
    var i := 0;
    while i < |pkgs|
      invariant 0 <= i <= |pkgs|
      invariant opkg.dryRun == old(opkg.dryRun)
      invariant start + AttemptAll(shell, installed0, pkgs, opkg.dryRun).ran
        == shell.ran + AttemptAll(shell, opkg.installed, pkgs[i..], opkg.dryRun).ran
      invariant AttemptAll(shell, installed0, pkgs, opkg.dryRun).installed
        == AttemptAll(shell, opkg.installed, pkgs[i..], opkg.dryRun).installed
    {
      var pkg := pkgs[i];
      assert pkgs[i..][0] == pkg && pkgs[i..][1..] == pkgs[i + 1..];
      AttemptStep(shell, shell.ran, opkg.installed, pkgs[i..], opkg.dryRun);
      ghost var first := Attempt(shell, opkg.installed, pkg, opkg.dryRun);
      ghost var before := shell.ran;
      // With the flag unset, `install` raises AttributeError, which the loop logs and passes over.
      if !opkg.IsInstalled(pkg) && opkg.dryRun.Some? {
        var _ := opkg.Install(pkg, false, shell);
      }
      assert shell.ran == before + first.ran && opkg.installed == first.installed;
      i := i + 1;
    }
    assert pkgs[i..] == [];
  }

  // ---------------------------------------------------------------------------
  // Symbolic links and the DNS repair
  // ---------------------------------------------------------------------------

  /** The symbolic links on the machine: each link path with the path it points at. */
  class Symlinks {
    var targets: map<string, string>

    constructor(targets: map<string, string>)
      ensures this.targets == targets
    {
      this.targets := targets;
    }

    /** `os.unlink(path)` on a link. */
    method Unlink(path: string)
      modifies this
      ensures targets == old(targets) - {path}
    {
      targets := targets - {path};
    }
  }

  /** A path is a link or a regular file, never both, and no link points at a link. */
  predicate Separate(files: map<string, FileEntry>, links: map<string, string>) {
    forall p :: p in links ==> p !in files && links[p] !in links
  }

  /** The path `open` and `chmod` reach: the link's target, or the path itself. */
  function Resolve(links: map<string, string>, path: string): string {
    if path in links then links[path] else path
  }

  /** `os.path.exists`: follows a link, so a dangling link does not exist. */
  predicate PathExists(files: map<string, FileEntry>, links: map<string, string>, path: string) {
    Resolve(links, path) in files
  }

  /** `os.path.islink`. */
  predicate IsLink(links: map<string, string>, path: string) {
    path in links
  }

  /** The text `open(path).read()` returns. */
  function ReadThrough(files: map<string, FileEntry>, links: map<string, string>, path: string): string
    requires PathExists(files, links, path)
  {
    files[Resolve(links, path)].content
  }

  /** `shutil.copy2(src, dst)`: the text and the permission bits of `src` land on what `dst` resolves to. */
  method Copy2(fs: FileSystem, links: Symlinks, src: string, dst: string)
    requires PathExists(fs.files, links.targets, src)
    modifies fs
    ensures var target := Resolve(links.targets, dst);
      target in fs.files
      && fs.files[target].content == ReadThrough(old(fs.files), links.targets, src)
      && PermissionBits(fs.files[target].mode) == PermissionBits(old(fs.files)[Resolve(links.targets, src)].mode)
      && forall p :: p != target ==> (p in fs.files <==> p in old(fs.files)) && (p in fs.files ==> fs.files[p] == old(fs.files)[p])
  {
    var entry := fs.files[Resolve(links.targets, src)];
    fs.WriteText(Resolve(links.targets, dst), entry.content);
    fs.Chmod(Resolve(links.targets, dst), PermissionBits(entry.mode));
  }

  /**
   * `_backup_dns_configuration`: when resolv.conf exists and no backup does,
   * the backup receives its text. A regular file is copied byte for byte with
   * its permission bits; a link's target is read in text mode, so its line
   * endings arrive as "\n", and written to a new file.
   */
  method BackupDns(fs: FileSystem, links: Symlinks)
    requires Separate(fs.files, links.targets)
    modifies fs
    ensures var backup := Resolve(links.targets, ResolvBackup);
      if PathExists(old(fs.files), links.targets, ResolvConf) && !PathExists(old(fs.files), links.targets, ResolvBackup)
      then backup in fs.files
        && fs.files[backup].content == (var text := ReadThrough(old(fs.files), links.targets, ResolvConf);
                                        if IsLink(links.targets, ResolvConf) then Universal(text) else text)
        && fs.files == old(fs.files)[backup := fs.files[backup]]
      else fs.files == old(fs.files)
    ensures Separate(fs.files, links.targets)
  {
    if PathExists(fs.files, links.targets, ResolvConf) && !PathExists(fs.files, links.targets, ResolvBackup) {
      if !IsLink(links.targets, ResolvConf) {
        Copy2(fs, links, ResolvConf, ResolvBackup);
      } else {
        var text := Universal(ReadThrough(fs.files, links.targets, ResolvConf));
        fs.WriteText(Resolve(links.targets, ResolvBackup), text);
      }
    }
  }

  /** What the repair finds at `/etc/resolv.conf`. */
  datatype Diagnosis = Missing | BrokenLink | NoNameserver | Healthy

  /** A readable resolv.conf needs repair when it is blank or names no nameserver. */
  predicate Unusable(content: string) {
    Strip(content) == "" || !Contains(content, "nameserver")
  }

  /**
   * The diagnosis as `_fix_dns_configuration` writes it: the existence test
   * comes first, and `os.path.exists` is False for a dangling link, so the
   * branch meant for broken links is never reached.
   */
  function DiagnoseAsWritten(files: map<string, FileEntry>, links: map<string, string>): (d: Diagnosis)
    ensures d != BrokenLink
  {
    if !PathExists(files, links, ResolvConf) then Missing
    else if IsLink(links, ResolvConf) && !PathExists(files, links, ResolvConf) then BrokenLink
    else if Unusable(ReadThrough(files, links, ResolvConf)) then NoNameserver
    else Healthy
  }

  /** The diagnosis with the dangling-link test first, so that the link is removed before the rewrite. */
  function Diagnose(files: map<string, FileEntry>, links: map<string, string>): (d: Diagnosis)
    ensures d == BrokenLink <==> IsLink(links, ResolvConf) && !PathExists(files, links, ResolvConf)
    ensures d == Missing <==> !IsLink(links, ResolvConf) && !PathExists(files, links, ResolvConf)
    ensures d == Healthy <==>
      PathExists(files, links, ResolvConf) && !Unusable(ReadThrough(files, links, ResolvConf))
  {
    if IsLink(links, ResolvConf) && !PathExists(files, links, ResolvConf) then BrokenLink
    else if !PathExists(files, links, ResolvConf) then Missing
    else if Unusable(ReadThrough(files, links, ResolvConf)) then NoNameserver
    else Healthy
  }

  /** The two diagnoses part only on a dangling link, which the code as written takes for a missing file. */
  lemma DiagnosesDifferOnlyOnBrokenLinks(files: map<string, FileEntry>, links: map<string, string>)
    ensures Diagnose(files, links) == BrokenLink ==> DiagnoseAsWritten(files, links) == Missing
    ensures Diagnose(files, links) != BrokenLink ==> DiagnoseAsWritten(files, links) == Diagnose(files, links)
  {
  }

  /** A concrete dangling link: the code as written never unlinks it. */
  lemma DanglingLinkKeptAsWritten()
    ensures var links := map[ResolvConf := "/run/resolvconf/resolv.conf"];
      var files: map<string, FileEntry> := map[];
      DiagnoseAsWritten(files, links) == Missing && Diagnose(files, links) == BrokenLink
  {
    var links := map[ResolvConf := "/run/resolvconf/resolv.conf"];
    assert Resolve(links, ResolvConf) == "/run/resolvconf/resolv.conf";
  }

  const FallbackDnsLines: seq<string> := [
    "# DNS configuration restored by nilrt-snac after ClamAV installation",
    "nameserver 8.8.8.8",
    "nameserver 8.8.4.4",
    "nameserver 1.1.1.1",
    ""
  ]

  /** The resolv.conf written when there is no backup to restore. */
  const FallbackDns := Join(FallbackDnsLines, "\n")

  /** The fallback text is one a later repair accepts. */
  lemma FallbackUsable()
    ensures !Unusable(FallbackDns)
  {
    var head := FallbackDnsLines[0] + "\n";
    var tail := " 8.8.8.8" + "\n" + Join(FallbackDnsLines[2..], "\n");
    assert FallbackDnsLines[1] == "nameserver" + " 8.8.8.8";
    assert FallbackDns == head + "nameserver" + tail;
    ContainsMiddle(head, "nameserver", tail);
    assert (head + "nameserver" + tail)[|head|] == 'n';
    StripNotBlank(FallbackDns, |head|);
  }

  const Nslookup := ["nslookup", "google.com"]

  /**
   * The first half of `_fix_dns_configuration`, with the broken-link test
   * ahead of the existence test: decides whether a repair is needed, and
   * removes a broken link.
   */
  method Examine(fs: FileSystem, links: Symlinks) returns (d: Diagnosis)
    requires Separate(fs.files, links.targets)
    modifies links
    ensures d == Diagnose(fs.files, old(links.targets))
    ensures links.targets == (if d == BrokenLink then old(links.targets) - {ResolvConf} else old(links.targets))
    ensures d != Healthy ==> !IsLink(links.targets, ResolvConf) || PathExists(fs.files, links.targets, ResolvConf)
    ensures Separate(fs.files, links.targets)
  {
    var needsFix := false;
    d := Healthy;
    if IsLink(links.targets, ResolvConf) && !PathExists(fs.files, links.targets, ResolvConf) {
      links.Unlink(ResolvConf);
      needsFix := true;
      d := BrokenLink;
    } else if !PathExists(fs.files, links.targets, ResolvConf) {
      needsFix := true;
      d := Missing;
    } else {
      var content := ReadThrough(fs.files, links.targets, ResolvConf);
      if Strip(content) == "" || !Contains(content, "nameserver") {
        needsFix := true;
        d := NoNameserver;
      }
    }
    assert needsFix <==> d != Healthy;
  }

  /** The backup and resolv.conf are one file, so `shutil.copy2` raises SameFileError. */
  predicate SameFile(files: map<string, FileEntry>, links: map<string, string>) {
    PathExists(files, links, ResolvBackup) && Resolve(links, ResolvBackup) == Resolve(links, ResolvConf)
  }

  /**
   * The repair itself: restore the backup when there is one, otherwise write
   * the fallback nameservers, then give the result mode 0o644.
   */
  method Restore(fs: FileSystem, links: Symlinks)
    requires Separate(fs.files, links.targets)
    requires !SameFile(fs.files, links.targets)
    modifies fs
    ensures PathExists(fs.files, links.targets, ResolvConf)
    ensures ReadThrough(fs.files, links.targets, ResolvConf)
      == (if PathExists(old(fs.files), links.targets, ResolvBackup)
          then ReadThrough(old(fs.files), links.targets, ResolvBackup) else FallbackDns)
    ensures PermissionBits(fs.files[Resolve(links.targets, ResolvConf)].mode) == 0x1A4
    ensures fs.files == old(fs.files)[Resolve(links.targets, ResolvConf) := fs.files[Resolve(links.targets, ResolvConf)]]
    ensures Separate(fs.files, links.targets)
  {
    var target := Resolve(links.targets, ResolvConf);
    if PathExists(fs.files, links.targets, ResolvBackup) {
      Copy2(fs, links, ResolvBackup, ResolvConf);
    } else {
      fs.WriteText(target, FallbackDns);
    }
    fs.Chmod(target, 0x1A4);
  }

  /**
   * `_fix_dns_configuration`, with the broken-link test ahead of the
   * existence test. A healthy resolv.conf is left alone. Otherwise a broken
   * link is removed, the backup is restored when there is one and the
   * fallback nameservers are written when there is not, the result is given
   * mode 0o644, and `nslookup` is run once, its status only logged. A backup
   * that is resolv.conf itself makes the copy raise, which is logged and ends
   * the repair.
   */
  method FixDns(fs: FileSystem, links: Symlinks, shell: Shell) returns (d: Diagnosis)
    requires Separate(fs.files, links.targets)
    modifies fs, links, shell
    ensures d == Diagnose(old(fs.files), old(links.targets))
    ensures links.targets == (if d == BrokenLink then old(links.targets) - {ResolvConf} else old(links.targets))
    ensures d == Healthy || SameFile(old(fs.files), links.targets) ==>
      fs.files == old(fs.files) && shell.ran == old(shell.ran)
    ensures d != Healthy && !SameFile(old(fs.files), links.targets) ==>
      shell.ran == old(shell.ran) + [Nslookup]
      && PathExists(fs.files, links.targets, ResolvConf)
      && ReadThrough(fs.files, links.targets, ResolvConf)
        == (if PathExists(old(fs.files), old(links.targets), ResolvBackup)
            then ReadThrough(old(fs.files), old(links.targets), ResolvBackup) else FallbackDns)
      && PermissionBits(fs.files[Resolve(links.targets, ResolvConf)].mode) == 0x1A4
    ensures Separate(fs.files, links.targets)
  {
    d := Examine(fs, links);
    assert Resolve(links.targets, ResolvBackup) == Resolve(old(links.targets), ResolvBackup);
    if d != Healthy && !SameFile(fs.files, links.targets) {
      Restore(fs, links);
      var _ := shell.Run(Nslookup, false);
    }
  }

  // ---------------------------------------------------------------------------
  // The files configure writes
  // ---------------------------------------------------------------------------

  const FreshclamLines: seq<string> := [
    "# Freshclam configuration for NILRT (Manual mode)",
    "DatabaseDirectory /var/lib/clamav",
    "UpdateLogFile /var/lib/clamav/freshclam.log",
    "LogVerbose yes",
    "LogSyslog no",
    "LogFacility LOG_LOCAL6",
    "DatabaseOwner clamav",
    "DNSDatabaseInfo current.cvd.clamav.net",
    "DatabaseMirror db.local.clamav.net",
    "DatabaseMirror database.clamav.net",
    "MaxAttempts 5",
    "ScriptedUpdates yes",
    "CompressLocalDatabase no",
    "Bytecode yes",
    "NotifyClamd /etc/clamav/clamd.conf",
    "# MANUAL MODE: Automatic updates disabled - signatures must be updated manually",
    "# To enable automatic updates, uncomment the line below and set desired frequency",
    "# Checks 24",
    "TestDatabases yes",
    ""
  ]

  const ClamdLines: seq<string> := ["# ClamAV daemon configuration for NILRT"] + ClamdRest
  const ClamdRest: seq<string> := [
    "LogFile /var/lib/clamav/clamd.log",
    "LogTime yes",
    "LogFileUnlock yes",
    "LogVerbose yes",
    "LogSyslog yes",
    "LogFacility LOG_LOCAL6",
    "PidFile /var/run/clamav/clamd.pid",
    "DatabaseDirectory /var/lib/clamav",
    "LocalSocket /var/run/clamav/clamd.ctl",
    "LocalSocketGroup clamav",
    "LocalSocketMode 666",
    "User clamav",
    "AllowSupplementaryGroups yes",
    "TemporaryDirectory /tmp",
    "ScanMail yes",
    "ScanArchive yes",
    "ArchiveBlockEncrypted no",
    "MaxDirectoryRecursion 15",
    "FollowDirectorySymlinks no",
    "FollowFileSymlinks no",
    "ReadTimeout 180",
    "MaxThreads 12",
    "MaxConnectionQueueLength 15",
    "StreamMaxLength 25M",
    "MaxFiles 10000",
    "MaxRecursion 16",
    "MaxFileSize 25M",
    "MaxScanSize 100M",
    "OnAccessMaxFileSize 5M",
    "AllowAllMatchScan yes",
    "ForceToDisk no",
    "DisableCertCheck no",
    "DisableCache no",
    "MaxScanTime 120000",
    "MaxZipTypeRcg 1M",
    "MaxPartitions 50",
    "MaxIconsPE 100",
    "PCREMatchLimit 10000",
    "PCRERecMatchLimit 5000",
    "PCREMaxFileSize 25M",
    "ScanXMLDOCS yes",
    "ScanHWP3 yes",
    "MaxEmbeddedPE 10M",
    "MaxHTMLNormalize 10M",
    "MaxHTMLNoTags 2M",
    "MaxScriptNormalize 5M",
    "MaxZipAdvertising 25M",
    "AlertBrokenExecutables no",
    "AlertBrokenMedia no",
    "AlertEncrypted no",
    "AlertEncryptedArchive no",
    "AlertEncryptedDoc no",
    "AlertMacros no",
    "AlertOLE2Macros no",
    "AlertPhishingSSLMismatch no",
    "AlertPhishingCloak no",
    "AlertPartitionIntersection no",
    "PreludeEnable no",
    "PreludeAnalyzerName ClamAV",
    "DetectPUA no",
    "ExcludePUA NetTool",
    "ExcludePUA PWTool",
    "IncludePUA Spy",
    "IncludePUA Scanner",
    "IncludePUA Rootkit",
    "HeuristicScanPrecedence no",
    "StructuredDataDetection no",
    "CommandReadTimeout 30",
    "SendBufTimeout 200",
    "MaxQueue 100",
    "IdleTimeout 30",
    "ExitOnOOM no",
    "LeaveTemporaryFiles no",
    "AlgorithmicDetection yes",
    "ScanPE yes",
    "ScanELF yes",
    "ScanOLE2 yes",
    "ScanPDF yes",
    "ScanSWF yes",
    "PhishingSignatures yes",
    "PhishingScanURLs yes",
    "PhishingAlwaysBlockSSLMismatch no",
    "PhishingAlwaysBlockCloak no",
    "PartitionIntersection no",
    "DetectBrokenExecutables no",
    "ScanPartialMessages no",
    "HeuristicAlerts yes",
    "StructuredMinCreditCardCount 3",
    "StructuredMinSSNCount 3",
    "StructuredSSNFormatNormal yes",
    "StructuredSSNFormatStripped yes",
    "ScanHTML yes",
    "MaxRecHWP3 16",
    ""
  ]

  const WrapperLines: seq<string> := ["#!/bin/bash"] + WrapperRest
  const WrapperRest: seq<string> := [
    "",
    "# ClamAV Scan Wrapper Script for NILRT",
    "# This script manages memory requirements and performs virus scanning",
    "",
    "# Check for root privileges",
    "if [ \"$EUID\" -ne 0 ]; then",
    "  echo \"This script must be run as root. Please use sudo.\"",
    "  exit 1",
    "fi",
    "",
    "# Check total memory in KB and convert to MB",
    "total_mem_kb=$(grep MemTotal /proc/meminfo | awk '{print $2}')",
    "total_mem_mb=$((total_mem_kb / 1024))",
    "  ",
    "# Check if any swap is currently active",
    "swap_active=$(swapon --show | wc -l)",
    "",
    "# Create and enable swap file only if memory < 3GB and no swap is active",
    "if [ \"$total_mem_mb\" -lt 3072 ] && [ \"$swap_active\" -eq 0 ]; then",
    "  echo \"System has ${total_mem_mb}MB memory. Creating temporary swap file for ClamAV...\"",
    "  fallocate -l 1G /temp_swapfile",
    "  chmod 600 /temp_swapfile",
    "  mkswap /temp_swapfile",
    "  swapon /temp_swapfile",
    "  swap_created=true",
    "  echo \"Temporary swap file created and activated.\"",
    "else",
    "  swap_created=false",
    "  if [ \"$total_mem_mb\" -ge 3072 ]; then",
    "    echo \"System has sufficient memory (${total_mem_mb}MB) for ClamAV scan.\"",
    "  else",
    "    echo \"Swap already active, proceeding with scan.\"",
    "  fi",
    "fi",
    "",
    "# Note: Virus definitions are NOT automatically updated before scanning",
    "# To update signatures manually, run: sudo freshclam",
    "echo \"Starting ClamAV scan with current virus definitions...\"",
    "echo \"Note: To update signatures before scanning, run 'sudo freshclam' first\"",
    "",
    "# Run ClamAV scan with memory and performance optimizations",
    "echo \"Starting ClamAV virus scan...\"",
    "echo \"This may take a while depending on the number of files...\"",
    "",
    "clamscan \\",
    "  --recursive \\",
    "  --infected \\",
    "  --max-filesize=250M \\",
    "  --max-scansize=250M \\",
    "  --exclude-dir=^/sys/ \\",
    "  --exclude-dir=^/proc/ \\",
    "  --exclude-dir=^/dev/ \\",
    "  --exclude-dir=^/tmp/ \\",
    "  --exclude-dir=^/var/tmp/ \\",
    "  --log=/var/lib/clamav/scan.log \\",
    "  \"$@\"",
    "",
    "scan_result=$?",
    "",
    "# Clean up swap file if it was created",
    "if [ \"$swap_created\" = true ]; then",
    "  echo \"Cleaning up temporary swap file...\"",
    "  swapoff /temp_swapfile",
    "  rm /temp_swapfile",
    "  echo \"Temporary swap file removed.\"",
    "fi",
    "",
    "# Report results",
    "case $scan_result in",
    "  0)",
    "    echo \"Scan completed successfully. No viruses found.\"",
    "    ;;",
    "  1)",
    "    echo \"Scan completed. Viruses or suspicious files were found!\"",
    "    echo \"Check /var/lib/clamav/scan.log for details.\"",
    "    ;;",
    "  *)",
    "    echo \"Scan completed with errors (exit code: $scan_result).\"",
    "    echo \"Check /var/lib/clamav/scan.log for details.\"",
    "    ;;",
    "esac",
    "",
    "exit $scan_result",
    ""
  ]

  /** The freshclam configuration: manual updates, databases under `/var/lib/clamav`. */
  const FreshclamConf := Join(seq(|FreshclamLines|, i requires 0 <= i < |FreshclamLines| => FreshclamLines[i]), "\n")
  /** The clamd configuration. */
  const ClamdConf := Join(seq(|ClamdLines|, i requires 0 <= i < |ClamdLines| => ClamdLines[i]), "\n")
  /** The `clamav-scan` wrapper: adds a temporary swap file on small machines, then runs `clamscan`. */
  const WrapperScript := Join(seq(|WrapperLines|, i requires 0 <= i < |WrapperLines| => WrapperLines[i]), "\n")

  /** None of the three texts is empty. */
  lemma TextsNotEmpty()
    ensures FreshclamConf != "" && ClamdConf != "" && WrapperScript != ""
  {
    assert |FreshclamLines| >= 1 && |FreshclamLines[0]| > 0;
    assert |ClamdLines| >= 1 && |ClamdLines[0]| > 0;
    assert |WrapperLines| >= 1 && |WrapperLines[0]| > 0;
  }

  /**
   * `open(path, 'w').write(text)` then `os.chmod(path, mode)`: the file holds
   * the text with the given permission bits, and nothing else changes.
   */
  method WriteWithMode(fs: FileSystem, path: string, text: string, m: int)
    modifies fs
    ensures path in fs.files && fs.files[path].content == text
    ensures PermissionBits(fs.files[path].mode) == PermissionBits(m)
    ensures fs.files == old(fs.files)[path := fs.files[path]]
    ensures path in old(fs.files) ==>
      fs.files[path].uid == old(fs.files)[path].uid && fs.files[path].gid == old(fs.files)[path].gid
  {
    fs.WriteText(path, text);
    fs.Chmod(path, m);
  }

  /** The three pairs of service commands, each pair in its own `try`. */
  const DaemonOff := (["systemctl", "disable", "clamav-daemon"], ["systemctl", "stop", "clamav-daemon"])
  const FreshclamOff := (["systemctl", "disable", "clamav-freshclam"], ["systemctl", "stop", "clamav-freshclam"])
  const SysVOff := (["update-rc.d", "clamav-daemon", "disable"], ["update-rc.d", "clamav-freshclam", "disable"])

  /**
   * The commands of one pair: the status is not checked, but a first command
   * whose program is missing raises and skips the second.
   */
  function PairRuns(shell: Shell, pair: (seq<string>, seq<string>)): (r: seq<seq<string>>)
    requires |pair.0| >= 1
    ensures |r| >= 1 && r[0] == pair.0
    ensures pair.1 in r <==> pair.1 == pair.0 || pair.0[0] !in shell.missing
  {
    if pair.0[0] in shell.missing then [pair.0] else [pair.0, pair.1]
  }

  method RunPair(shell: Shell, pair: (seq<string>, seq<string>))
    requires |pair.0| >= 1 && |pair.1| >= 1
    modifies shell
    ensures shell.ran == old(shell.ran) + PairRuns(shell, pair)
  {
    var first := shell.Run(pair.0, false);
    if first.Ok? {
      var _ := shell.Run(pair.1, false);
    }
  }

  /** `_disable_automatic_services`: three pairs of unchecked commands; nothing they do is raised. */
  method DisableServices(shell: Shell)
    modifies shell
    ensures shell.ran == old(shell.ran) + PairRuns(shell, DaemonOff) + PairRuns(shell, FreshclamOff) + PairRuns(shell, SysVOff)
  {
    RunPair(shell, DaemonOff);
    RunPair(shell, FreshclamOff);
    RunPair(shell, SysVOff);
  }

  /** With `systemctl` installed both services are disabled and then stopped. */
  lemma ServicesStopped(shell: Shell)
    requires "systemctl" !in shell.missing
    ensures var ran := PairRuns(shell, DaemonOff) + PairRuns(shell, FreshclamOff) + PairRuns(shell, SysVOff);
      DaemonOff.0 in ran && DaemonOff.1 in ran && FreshclamOff.0 in ran && FreshclamOff.1 in ran
  {
    var a, b, c := PairRuns(shell, DaemonOff), PairRuns(shell, FreshclamOff), PairRuns(shell, SysVOff);
    assert DaemonOff.1 in a && FreshclamOff.1 in b;
    assert a[0] == DaemonOff.0 && b[0] == FreshclamOff.0;
    assert forall x :: x in a || x in b ==> x in a + b + c;
  }

  /**
   * The ownership step of `_configure_clamav_files`: with a `clamav` user and
   * group, a missing freshclam log is created and given to them with mode
   * 0o644. Without them the fallback only loosens the directory.
   */
  method CreateLog(fs: FileSystem, accounts: Accounts)
    modifies fs
    ensures var uid, gid := IdOf(accounts.users, ClamAv), IdOf(accounts.groups, ClamAv);
      fs.files == (if uid.Some? && gid.Some? && FreshclamLog !in old(fs.files)
                   then old(fs.files)[FreshclamLog := FileEntry(FreshclamLogText, Chmodded(NewFileMode, 0x1A4), uid.value, gid.value)]
                   else old(fs.files))
  {
    var uid := IdOf(accounts.users, ClamAv);
    var gid := IdOf(accounts.groups, ClamAv);
    if uid.Some? && gid.Some? {
      if !fs.Exists(FreshclamLog) {
        fs.WriteText(FreshclamLog, FreshclamLogText);
        fs.Chown(FreshclamLog, uid.value, gid.value);
        fs.Chmod(FreshclamLog, 0x1A4);
      }
    }
  }

  /**
   * `_configure_clamav_files`: the freshclam log, then both configurations
   * written with mode 0o644, then the services disabled.
   */
  method ConfigureFiles(fs: FileSystem, accounts: Accounts, shell: Shell)
    modifies fs, shell
    ensures shell.ran == old(shell.ran) + PairRuns(shell, DaemonOff) + PairRuns(shell, FreshclamOff) + PairRuns(shell, SysVOff)
    ensures FreshclamConfPath in fs.files && fs.files[FreshclamConfPath].content == FreshclamConf
    ensures PermissionBits(fs.files[FreshclamConfPath].mode) == 0x1A4
    ensures ClamdConfPath in fs.files && fs.files[ClamdConfPath].content == ClamdConf
    ensures PermissionBits(fs.files[ClamdConfPath].mode) == 0x1A4
    ensures var uid, gid := IdOf(accounts.users, ClamAv), IdOf(accounts.groups, ClamAv);
      uid.Some? && gid.Some? && FreshclamLog !in old(fs.files) ==>
        FreshclamLog in fs.files
        && fs.files[FreshclamLog] == FileEntry(FreshclamLogText, Chmodded(NewFileMode, 0x1A4), uid.value, gid.value)
    ensures forall p :: p !in {FreshclamLog, FreshclamConfPath, ClamdConfPath} ==>
      (p in fs.files <==> p in old(fs.files)) && (p in fs.files ==> fs.files[p] == old(fs.files)[p])
  {
    CreateLog(fs, accounts);
    WriteWithMode(fs, FreshclamConfPath, FreshclamConf, 0x1A4);
    ghost var freshclam := fs.files[FreshclamConfPath];
    WriteWithMode(fs, ClamdConfPath, ClamdConf, 0x1A4);
    assert fs.files[FreshclamConfPath] == freshclam;
    DisableServices(shell);
  }

  /** `_create_wrapper_script`: the wrapper is written and made executable (0o755). */
  method CreateWrapper(fs: FileSystem)
    modifies fs
    ensures WrapperPath in fs.files && fs.files[WrapperPath].content == WrapperScript
    ensures PermissionBits(fs.files[WrapperPath].mode) == 0x1ED
    ensures fs.files == old(fs.files)[WrapperPath := fs.files[WrapperPath]]
  {
    WriteWithMode(fs, WrapperPath, WrapperScript, 0x1ED);
  }

  // ---------------------------------------------------------------------------
  // configure
  // ---------------------------------------------------------------------------

  /**
   * The installation branch of `configure`, taken when no ClamAV package is
   * listed: back up resolv.conf, install, then repair resolv.conf unless the
   * installation raised.
   */
  method InstallBranch(fs: FileSystem, links: Symlinks, shell: Shell, opkg: OpkgHelper) returns (r: Result<(), Failure>)
    requires Separate(fs.files, links.targets)
    modifies fs, links, shell, opkg
    ensures opkg.dryRun == old(opkg.dryRun)
    ensures Separate(fs.files, links.targets)
    ensures r.Ok? <==> RunOutcome(shell, ["update"]).Ok?
    ensures r.Err? ==> r.error == RunOutcome(shell, ["update"]).error && opkg.installed == old(opkg.installed)
    ensures r.Ok? ==> opkg.installed == AttemptAll(shell, old(opkg.installed), Packages, opkg.dryRun).installed
  {
    BackupDns(fs, links);
    r := InstallPackages(shell, opkg);
    if r.Ok? {
      var _ := FixDns(fs, links, shell);
    }
  }

  /**
   * `configure`: packages are installed only when none of them is listed,
   * and only a failing `opkg update` there makes it raise; the two
   * configurations and the wrapper are rewritten on every other run, dry or
   * not, so that `verify` passes afterwards.
   */
  method Configure(fs: FileSystem, links: Symlinks, shell: Shell, accounts: Accounts, opkg: OpkgHelper)
    returns (r: Result<(), Failure>)
    requires Separate(fs.files, links.targets)
    modifies fs, links, shell, opkg
    ensures opkg.dryRun == old(opkg.dryRun)
    ensures r.Err? <==> InstalledOf(old(opkg.installed), Packages) == [] && RunOutcome(shell, ["update"]).Err?
    ensures r.Err? ==> r.error == RunOutcome(shell, ["update"]).error
    ensures opkg.installed ==
      (if InstalledOf(old(opkg.installed), Packages) == [] && r.Ok?
       then AttemptAll(shell, old(opkg.installed), Packages, opkg.dryRun).installed
       else old(opkg.installed))
    ensures InstalledOf(old(opkg.installed), Packages) != [] ==> links.targets == old(links.targets)
    ensures r.Ok? ==> FreshclamConfPath in fs.files && fs.files[FreshclamConfPath].content == FreshclamConf
    ensures r.Ok? ==> ClamdConfPath in fs.files && fs.files[ClamdConfPath].content == ClamdConf
    ensures r.Ok? ==> WrapperPath in fs.files && fs.files[WrapperPath].content == WrapperScript
    ensures r.Ok? ==> Valid(opkg.installed, fs.files)
  {
    var found := InstalledOf(opkg.installed, Packages);
    if found == [] {
      r := InstallBranch(fs, links, shell, opkg);
      if r.Err? {
        return;
      }
    }
    RewriteFiles(fs, accounts, shell);
    r := Ok(());
  }

  /** The part of `configure` every run reaches: the configurations, then the wrapper. */
  method RewriteFiles(fs: FileSystem, accounts: Accounts, shell: Shell)
    modifies fs, shell
    ensures FreshclamConfPath in fs.files && fs.files[FreshclamConfPath].content == FreshclamConf
    ensures ClamdConfPath in fs.files && fs.files[ClamdConfPath].content == ClamdConf
    ensures WrapperPath in fs.files && fs.files[WrapperPath].content == WrapperScript
    ensures ConfigPresent(fs.files, ClamdConfPath) && ConfigPresent(fs.files, FreshclamConfPath)
  {
    ConfigureFiles(fs, accounts, shell);
    CreateWrapper(fs);
    TextsNotEmpty();
  }
}
