/**
 * `_FirewallConfig`: installs firewalld, rebuilds its permanent configuration
 * with `firewall-offline-cmd` (zones, four policies and their targets), and
 * reloads it; `verify` asks the running daemon about the policy targets.
 */
module FirewallConfig {
  import opened Wrappers
  import opened Text
  import opened SnacErrors
  import opened Host
  import opened Opkg

  const Firewalld := "firewalld"
  const OfflineTool := "firewalld-offline-cmd"
  const LogRotate := "firewalld-log-rotate"

  /** `_offlinecmd(*args)`: `firewall-offline-cmd -q` followed by the arguments, run with `check=True`. */
  function Offline(args: seq<string>): (cmd: seq<string>)
    ensures |cmd| == |args| + 2 && cmd[0] == "firewall-offline-cmd" && cmd[2..] == args
  {
    ["firewall-offline-cmd", "-q"] + args
  }

  /** `_cmd(*args)`: `firewall-cmd -q` followed by the arguments, run with `check=True`. */
  function Online(args: seq<string>): (cmd: seq<string>)
    ensures |cmd| == |args| + 2 && cmd[0] == "firewall-cmd" && cmd[2..] == args
  {
    ["firewall-cmd", "-q"] + args
  }

  // ---------------------------------------------------------------------------
  // configure
  // ---------------------------------------------------------------------------

  /** One `firewall-offline-cmd` call of `configure`, by what it does. */
  datatype OfflineCall =
    | ResetToDefaults
    | AddInterface(zone: string, iface: string)
    | RemoveForward(zone: string)
    | NewPolicy(policy: string)
    | IngressZone(policy: string, zone: string)
    | EgressZone(policy: string, zone: string)
    | AddProtocol(policy: string, protocol: string)
    | AddServices(policy: string, services: seq<string>)
    | SetTarget(policy: string, target: string)
    | AcceptIcmp(policy: string, icmpTypes: seq<string>)

  /** `--add-service=<name>` for each service, in order. */
  function ServiceArgs(services: seq<string>): (r: seq<string>)
    ensures |r| == |services|
  {
    if |services| == 0 then [] else ["--add-service=" + services[0]] + ServiceArgs(services[1..])
  }

  /** An IPv6 rich rule accepting each ICMP type, in order, written without quotes. */
  function RichRuleArgs(icmpTypes: seq<string>): (r: seq<string>)
    ensures |r| == |icmpTypes|
  {
    if |icmpTypes| == 0 then []
    else ["--add-rich-rule=" + "rule family=ipv6 icmp-type name=" + icmpTypes[0] + " accept"] + RichRuleArgs(icmpTypes[1..])
  }

  /** The arguments a call passes after `firewall-offline-cmd -q`. */
  function Args(call: OfflineCall): (r: seq<string>)
    ensures |r| >= 1
  {
    match call
    case ResetToDefaults => ["--reset-to-defaults"]
    case AddInterface(zone, iface) => ["--zone=" + zone, "--add-interface=" + iface]
    case RemoveForward(zone) => ["--zone=" + zone, "--remove-forward"]
    case NewPolicy(policy) => ["--new-policy=" + policy]
    case IngressZone(policy, zone) => ["--policy=" + policy, "--add-ingress-zone=" + zone]
    case EgressZone(policy, zone) => ["--policy=" + policy, "--add-egress-zone=" + zone]
    case AddProtocol(policy, protocol) => ["--policy=" + policy, "--add-protocol=" + protocol]
    case AddServices(policy, services) => ["--policy=" + policy] + ServiceArgs(services)
    case SetTarget(policy, target) => ["--policy=" + policy, "--set-target=" + target]
    case AcceptIcmp(policy, icmpTypes) => ["--policy=" + policy] + RichRuleArgs(icmpTypes)
  }

  const WorkIn := "work-in"
  const WorkOut := "work-out"
  const PublicIn := "public-in"
  const PublicOut := "public-out"
  const Continue := "CONTINUE"
  const Reject := "REJECT"

  const NeighbourDiscovery := ["neighbour-advertisement", "neighbour-solicitation", "echo-request", "echo-reply"]
  const Echo := ["echo-request", "echo-reply"]

  /** The zone changes that precede the policies, starting from firewalld's defaults. */
  const ZoneCalls: seq<OfflineCall> :=
    [ResetToDefaults, AddInterface("work", "wglv0"), RemoveForward("work"), RemoveForward("public")]

  /**
   * The calls that create one policy: its zones, ICMP, its services, then
   * the target when it has one and the ICMP rich rules when it has any.
   */
  function PolicyCalls(policy: string, ingress: string, egress: string, services: seq<string>,
                       target: Option<string>, icmpTypes: seq<string>): seq<OfflineCall>
  {
    [NewPolicy(policy), IngressZone(policy, ingress), EgressZone(policy, egress), AddProtocol(policy, "icmp"),
     AddServices(policy, services)]
    + (if target.Some? then [SetTarget(policy, target.value)] else [])
    + (if |icmpTypes| > 0 then [AcceptIcmp(policy, icmpTypes)] else [])
  }

  /** A policy's calls set a target exactly when it is given one, and then only that one. */
  lemma PolicyTarget(policy: string, ingress: string, egress: string, services: seq<string>,
                     target: Option<string>, icmpTypes: seq<string>)
    ensures var calls := PolicyCalls(policy, ingress, egress, services, target, icmpTypes);
      (target.Some? ==> SetTarget(policy, target.value) in calls)
      && forall c :: c in calls && c.SetTarget? ==> target.Some? && c == SetTarget(policy, target.value)
  {
  }

  /** Every `firewall-offline-cmd` call of `configure`, in order. */
  const OfflineCalls: seq<OfflineCall> :=
    ZoneCalls
    + PolicyCalls(WorkIn, "work", "HOST", ["ssh", "mdns"], None, [])
    + PolicyCalls(WorkOut, "HOST", "work", ["ssh", "http", "https"], Some(Reject), NeighbourDiscovery)
    + PolicyCalls(PublicIn, "public", "HOST", ["ssh", "wireguard"], None, [])
    + PolicyCalls(PublicOut, "HOST", "public", ["dhcp", "dhcpv6", "http", "https", "wireguard", "dns"],
                  Some(Reject), NeighbourDiscovery)
    + [AcceptIcmp("allow-host-ipv6", Echo)]

  const Reload := Online(["--reload"])

  /** Every command `configure` starts after the installs: the offline calls, then one online reload. */
  function ConfigureCommands(): (cmds: seq<seq<string>>)
    ensures |cmds| == |OfflineCalls| + 1
    ensures forall k :: 0 <= k < |OfflineCalls| ==> cmds[k] == Offline(Args(OfflineCalls[k]))
    ensures cmds[|OfflineCalls|] == Reload
    ensures forall c :: c in cmds ==> |c| >= 1
  {
    seq(|OfflineCalls|, k requires 0 <= k < |OfflineCalls| => Offline(Args(OfflineCalls[k]))) + [Reload]
  }

  /** The three installs, each stopping the rest when it raises. */
  function InstallsEffect(shell: Shell, installed: seq<string>, helperDryRun: Option<bool>): Effect {
    var e1 := InstallEffect(shell, installed, Firewalld, false, helperDryRun);
    var e2 := InstallEffect(shell, e1.installed, OfflineTool, false, helperDryRun);
    AndThen(e1, AndThen(e2, InstallEffect(shell, e2.installed, LogRotate, false, helperDryRun)))
  }

  /** A successful run of the installs leaves all three packages in the list. */
  lemma InstallsProvide(shell: Shell, installed: seq<string>, helperDryRun: Option<bool>)
    requires InstallsEffect(shell, installed, helperDryRun).result.Ok?
    ensures var after := InstallsEffect(shell, installed, helperDryRun).installed;
      Firewalld in after && OfflineTool in after && LogRotate in after
    ensures forall p :: p in installed ==> p in InstallsEffect(shell, installed, helperDryRun).installed
  {
    var e1 := InstallEffect(shell, installed, Firewalld, false, helperDryRun);
    assert e1.result.Ok?;
    var e2 := InstallEffect(shell, e1.installed, OfflineTool, false, helperDryRun);
    assert e2.result.Ok?;
  }

  /**
   * `configure`: a dry run returns before anything happens. Otherwise the
   * three packages are installed, then every offline command and the
   * reload run in order until the first that fails.
   */
  method Configure(shell: Shell, opkg: OpkgHelper, dryRun: bool) returns (r: Result<(), Failure>)
    requires !dryRun && (Firewalld !in opkg.installed || OfflineTool !in opkg.installed || LogRotate !in opkg.installed)
      ==> opkg.dryRun.Some?
    modifies shell, opkg
    ensures opkg.dryRun == old(opkg.dryRun)
    ensures dryRun ==> r == Ok(()) && shell.ran == old(shell.ran) && opkg.installed == old(opkg.installed)
    ensures !dryRun ==> opkg.installed == InstallsEffect(shell, old(opkg.installed), opkg.dryRun).installed
    ensures !dryRun && InstallsEffect(shell, old(opkg.installed), opkg.dryRun).result.Err? ==>
      r == InstallsEffect(shell, old(opkg.installed), opkg.dryRun).result
      && shell.ran == old(shell.ran) + InstallsEffect(shell, old(opkg.installed), opkg.dryRun).ran
    ensures !dryRun && InstallsEffect(shell, old(opkg.installed), opkg.dryRun).result.Ok? ==>
      r == CheckedResult(shell, ConfigureCommands())
      && shell.ran == old(shell.ran) + InstallsEffect(shell, old(opkg.installed), opkg.dryRun).ran
                      + CheckedRuns(shell, ConfigureCommands())
  {
    if dryRun {
      return Ok(());
    }
    r := Install(shell, opkg);
    if r.Err? {
      return;
    }
    r := RunChecked(shell, ConfigureCommands());
  }

  /** The three `install` calls of `configure`. */
  method Install(shell: Shell, opkg: OpkgHelper) returns (r: Result<(), Failure>)
    requires Firewalld !in opkg.installed || OfflineTool !in opkg.installed || LogRotate !in opkg.installed
      ==> opkg.dryRun.Some?
    modifies shell, opkg
    ensures opkg.dryRun == old(opkg.dryRun)
    ensures shell.ran == old(shell.ran) + InstallsEffect(shell, old(opkg.installed), opkg.dryRun).ran
    ensures r == InstallsEffect(shell, old(opkg.installed), opkg.dryRun).result
    ensures opkg.installed == InstallsEffect(shell, old(opkg.installed), opkg.dryRun).installed
  {
    ghost var ran0 := shell.ran;
    ghost var e1 := InstallEffect(shell, opkg.installed, Firewalld, false, opkg.dryRun);
    r := opkg.Install(Firewalld, false, shell);
    if r.Err? {
      return;
    }
    ghost var e2 := InstallEffect(shell, opkg.installed, OfflineTool, false, opkg.dryRun);
    r := opkg.Install(OfflineTool, false, shell);
    AndThenRan(ran0, e1, e2);
    if r.Err? {
      return;
    }
    ghost var e3 := InstallEffect(shell, opkg.installed, LogRotate, false, opkg.dryRun);
    r := opkg.Install(LogRotate, false, shell);
    AndThenRan(ran0 + e1.ran, e2, e3);
    AndThenRan(ran0, e1, AndThen(e2, e3));
  }

  /** The offline calls start from firewalld's defaults, and the run ends with the one online reload. */
  lemma ConfigureStartsFromDefaults()
    ensures ConfigureCommands()[0] == ["firewall-offline-cmd", "-q", "--reset-to-defaults"]
    ensures ConfigureCommands()[|ConfigureCommands()| - 1] == ["firewall-cmd", "-q", "--reload"]
    ensures forall k :: 0 <= k < |ConfigureCommands()| - 1 ==> ConfigureCommands()[k][0] == "firewall-offline-cmd"
  {
    FirstCallResets();
    OnlyLastOnline();
  }

  /** The first command resets firewalld to its defaults. */
  lemma FirstCallResets()
    ensures ConfigureCommands()[0] == Offline(["--reset-to-defaults"])
  {
    assert OfflineCalls[0] == ResetToDefaults by {
      assert OfflineCalls[..|ZoneCalls|] == ZoneCalls;
    }
  }

  /** The reload closes the run; every command before it is an offline one. */
  lemma OnlyLastOnline()
    ensures ConfigureCommands()[|ConfigureCommands()| - 1] == Reload
    ensures forall k :: 0 <= k < |ConfigureCommands()| - 1 ==> ConfigureCommands()[k][0] == "firewall-offline-cmd"
  {
    var cmds := ConfigureCommands();
    forall k | 0 <= k < |cmds| - 1
      ensures cmds[k][0] == "firewall-offline-cmd"
    {
      assert cmds[k] == Offline(Args(OfflineCalls[k]));
    }
  }

  /** Only a target call passes `--set-target=`: the other calls' arguments say something else. */
  lemma OnlyTargetCallsSetTargets(call: OfflineCall)
    requires !call.SetTarget?
    ensures forall a :: a in Args(call) ==> !StartsWith(a, "--set-target=")
  {
    var args := Args(call);
    forall a | a in args ensures !StartsWith(a, "--set-target=") {
      var k :| 0 <= k < |args| && args[k] == a;
      ArgumentOfOtherCall(call, k);
    }
  }

  /** The third character of each argument of a non-target call differs from that of `--set-target=`. */
  lemma ArgumentOfOtherCall(call: OfflineCall, k: int)
    requires !call.SetTarget? && 0 <= k < |Args(call)|
    ensures !StartsWith(Args(call)[k], "--set-target=")
  {
    var a := Args(call)[k];
    match call {
      case AddServices(policy, services) =>
        if k > 0 {
          assert a == ServiceArgs(services)[k - 1];
          ServiceArgPrefix(services, k - 1);
        }
      case AcceptIcmp(policy, icmpTypes) =>
        if k > 0 {
          assert a == RichRuleArgs(icmpTypes)[k - 1];
          RichRuleArgPrefix(icmpTypes, k - 1);
        }
      case _ =>
    }
    assert |a| > 2 && a[2] != 's';
    DiffersAt(a, "--set-target=", 2);
  }

  /** A string whose `i`-th character differs from the prefix's does not start with it. */
  lemma DiffersAt(a: string, prefix: string, i: int)
    requires 0 <= i < |prefix| && i < |a| && a[i] != prefix[i]
    ensures !StartsWith(a, prefix)
  {
    if |prefix| <= |a| {
      assert a[..|prefix|][i] == a[i];
    }
  }

  lemma {:induction false} ServiceArgPrefix(services: seq<string>, k: int)
    requires 0 <= k < |services|
    ensures |ServiceArgs(services)[k]| > 2 && ServiceArgs(services)[k][2] == 'a'
  {
    if k > 0 {
      assert ServiceArgs(services)[k] == ServiceArgs(services[1..])[k - 1];
      ServiceArgPrefix(services[1..], k - 1);
    }
  }

  lemma {:induction false} RichRuleArgPrefix(icmpTypes: seq<string>, k: int)
    requires 0 <= k < |icmpTypes|
    ensures |RichRuleArgs(icmpTypes)[k]| > 2 && RichRuleArgs(icmpTypes)[k][2] == 'a'
  {
    if k > 0 {
      assert RichRuleArgs(icmpTypes)[k] == RichRuleArgs(icmpTypes[1..])[k - 1];
      RichRuleArgPrefix(icmpTypes[1..], k - 1);
    } else {
      var flag := "--add-rich-rule=";
      assert RichRuleArgs(icmpTypes)[0] == flag + ("rule family=ipv6 icmp-type name=" + icmpTypes[0] + " accept");
    }
  }

  /** The only targets `configure` sets are REJECT on `work-out` and on `public-out`. */
  lemma OnlyOutPoliciesReject()
    ensures SetTarget(WorkOut, Reject) in OfflineCalls && SetTarget(PublicOut, Reject) in OfflineCalls
    ensures forall c :: c in OfflineCalls && c.SetTarget? ==> c == SetTarget(WorkOut, Reject) || c == SetTarget(PublicOut, Reject)
  {
    PolicyTarget(WorkIn, "work", "HOST", ["ssh", "mdns"], None, []);
    PolicyTarget(WorkOut, "HOST", "work", ["ssh", "http", "https"], Some(Reject), NeighbourDiscovery);
    PolicyTarget(PublicIn, "public", "HOST", ["ssh", "wireguard"], None, []);
    PolicyTarget(PublicOut, "HOST", "public", ["dhcp", "dhcpv6", "http", "https", "wireguard", "dns"],
                 Some(Reject), NeighbourDiscovery);
  }

  // ---------------------------------------------------------------------------
  // verify
  // ---------------------------------------------------------------------------

  /** The policies `verify` asks about, each with the target it expects, in the order it asks. */
  const TargetChecks: seq<(string, string)> :=
    [(WorkIn, Continue), (WorkOut, Reject), (PublicIn, Continue), (PublicOut, Reject)]

  /**
   * The targets `verify` expects are the ones `configure` sets: a policy
   * expected to REJECT is given that target, and a policy expected to
   * CONTINUE (firewalld's default) is given no target at all.
   */
  lemma ChecksMatchConfigure()
    ensures forall i :: 0 <= i < |TargetChecks| && TargetChecks[i].1 == Reject ==>
      SetTarget(TargetChecks[i].0, Reject) in OfflineCalls
    ensures forall i, c :: 0 <= i < |TargetChecks| && TargetChecks[i].1 == Continue && c in OfflineCalls && c.SetTarget? ==>
      c.policy != TargetChecks[i].0
  {
    OnlyOutPoliciesReject();
    assert |TargetChecks| == 4;
    assert TargetChecks[0] == (WorkIn, Continue) && TargetChecks[1] == (WorkOut, Reject);
    assert TargetChecks[2] == (PublicIn, Continue) && TargetChecks[3] == (PublicOut, Reject);
  }

  /** The shell command `_check_target` reads the target with. */
  function TargetQuery(policy: string): string {
    "firewall-cmd --permanent --policy=" + policy + " --get-target"
  }

  /** The command `subprocess.getoutput` starts for the query. */
  function TargetRun(policy: string): seq<string> {
    ["/bin/sh", "-c", TargetQuery(policy)]
  }

  /** What the daemon answers for a policy's target. */
  function ObservedTarget(shell: Shell, policy: string): string {
    shell.output(TargetRun(policy))
  }

  /** `_check_target(policy, expected)`: the answer must be exactly the expected target. */
  method CheckTarget(shell: Shell, policy: string, expected: string) returns (ok: bool)
    modifies shell
    ensures shell.ran == old(shell.ran) + [TargetRun(policy)]
    ensures ok <==> ObservedTarget(shell, policy) == expected
  {
    var actual := shell.GetOutput(TargetQuery(policy));
    ok := expected == actual;
  }

  const PidQuery := "pidof -x /usr/sbin/firewalld"
  const PidRun := ["/bin/sh", "-c", PidQuery]
  const CheckConfig := Online(["--check-config"])

  /** Digits separated by single underscores, as Python's `int()` reads a decimal number. */
  predicate DigitGroups(s: string) {
    |s| > 0 && IsDigit(s[0]) && IsDigit(s[|s| - 1])
    && (forall k :: 0 <= k < |s| ==> IsDigit(s[k]) || s[k] == '_')
    && (forall k :: 0 < k < |s| && s[k - 1] == '_' ==> s[k] != '_')
  }

  /**
   * The strings Python's `int()` accepts without a ValueError, over ASCII
   * digits: the whitespace `int()` skips at either end (which leaves out
   * 0x1C-0x1F), an optional sign, then digit groups.
   */
  predicate IsIntLiteral(s: string) {
    var t := TrimInt(s);
    var body := if |t| > 0 && (t[0] == '+' || t[0] == '-') then t[1..] else t;
    DigitGroups(body)
  }

  /** A pid as `pidof` prints it: decimal digits. */
  predicate Pid(p: string) {
    |p| > 0 && forall k :: 0 <= k < |p| ==> IsDigit(p[k])
  }

  /** One pid, with whitespace `int()` skips around it, is a number. */
  lemma SinglePidParses(pid: string, pre: string, post: string)
    requires Pid(pid)
    requires forall k :: 0 <= k < |pre| ==> IntSpace(pre[k])
    requires forall k :: 0 <= k < |post| ==> IntSpace(post[k])
    ensures IsIntLiteral(pre + pid + post)
  {
    TrimPadded(pre, pid, post);
    assert DigitGroups(pid);
  }

  /** A pid behind one of the separators 0x1C-0x1F, which `str.isspace()` accepts but `int()` does not skip, is not a number. */
  lemma SeparatorBeforePidRejected(sep: char, pid: string)
    requires '\U{1C}' <= sep <= '\U{1F}' && Pid(pid)
    ensures !IsIntLiteral([sep] + pid)
  {
    var s := [sep] + pid;
    assert s[|s| - 1] == pid[|pid| - 1];
    UnsignedLiteral(s);
  }

  /** No pid at all, whatever `str.isspace()` whitespace `pidof` prints, is not a number. */
  lemma NoPidRejected(pre: string, post: string)
    requires AllSpace(pre) && AllSpace(post)
    ensures !IsIntLiteral(pre + post)
  {
    assert AllSpace(pre + post) by {
      forall k | 0 <= k < |pre + post| ensures IsSpace((pre + post)[k]) {
        if k >= |pre| {
          assert (pre + post)[k] == post[k - |pre|];
        }
      }
    }
    TrimSpaces(pre + post);
  }

  /** Two pids, as `pidof` prints them when two daemons run, are not a number. */
  lemma TwoPidsRejected(left: string, right: string)
    requires Pid(left) && Pid(right)
    ensures !IsIntLiteral(left + " " + right)
  {
    var s := left + " " + right;
    assert s[0] == left[0] && s[|s| - 1] == right[|right| - 1];
    UnsignedLiteral(s);
    assert s[|left|] == ' ';
    SpaceBreaksDigits(s, |left|);
  }

  /** Text that starts with neither a sign nor skipped whitespace and ends with no skipped whitespace is a number exactly when it is digit groups. */
  lemma UnsignedLiteral(s: string)
    requires |s| > 0 && s[0] != '+' && s[0] != '-' && !IntSpace(s[0]) && !IntSpace(s[|s| - 1])
    ensures IsIntLiteral(s) <==> DigitGroups(s)
  {
    assert "" + s + "" == s;
    TrimPadded("", s, "");
  }

  lemma SpaceBreaksDigits(s: string, gap: int)
    requires 0 <= gap < |s| && s[gap] == ' '
    ensures !DigitGroups(s)
  {
  }

  /** What `verify` accepts. */
  predicate Valid(shell: Shell) {
    IsIntLiteral(shell.output(PidRun))
    && "firewall-cmd" !in shell.missing
    && ObservedTarget(shell, WorkIn) == Continue && ObservedTarget(shell, WorkOut) == Reject
    && ObservedTarget(shell, PublicIn) == Continue && ObservedTarget(shell, PublicOut) == Reject
  }

  /** `Valid` asks for exactly the targets listed in `TargetChecks`. */
  lemma ValidChecksEveryTarget(shell: Shell)
    ensures Valid(shell) <==>
      IsIntLiteral(shell.output(PidRun)) && "firewall-cmd" !in shell.missing
      && forall i :: 0 <= i < |TargetChecks| ==> ObservedTarget(shell, TargetChecks[i].0) == TargetChecks[i].1
  {
    assert |TargetChecks| == 4;
    assert TargetChecks[0] == (WorkIn, Continue) && TargetChecks[1] == (WorkOut, Reject);
    assert TargetChecks[2] == (PublicIn, Continue) && TargetChecks[3] == (PublicOut, Reject);
  }

  /** The commands `verify` starts when it does not raise. */
  function VerifyRuns(): seq<seq<string>> {
    [PidRun, CheckConfig, TargetRun(WorkIn), TargetRun(WorkOut), TargetRun(PublicIn), TargetRun(PublicOut)]
  }

  /**
   * `verify`: a pid that is not a number or a missing `firewall-cmd` only
   * makes it invalid, but a failing `--check-config` raises. All four target
   * checks run, whatever the earlier ones found.
   */
  method Verify(shell: Shell) returns (r: Result<bool, Failure>)
    modifies shell
    ensures r.Err? <==> "firewall-cmd" !in shell.missing && shell.exitCode(CheckConfig) != 0
    ensures r.Err? ==> r.error == CalledProcessError(CheckConfig, shell.exitCode(CheckConfig))
    ensures r.Err? ==> shell.ran == old(shell.ran) + [PidRun, CheckConfig]
    ensures r.Ok? ==> shell.ran == old(shell.ran) + VerifyRuns()
    ensures r.Ok? ==> (r.value <==> Valid(shell))
  {
    var valid := true;
    var pid := shell.GetOutput(PidQuery);
    if !IsIntLiteral(pid) {
      valid := false;
    }
    var checked := shell.Run(CheckConfig, true);
    if checked.Err? {
      if checked.error.OsError? && checked.error.kind == FileNotFound {
        valid := false;
      } else {
        return Err(checked.error);
      }
    }
    var targets := CheckTargets(shell);
    return Ok(targets && valid);
  }

  /** The four target checks of `verify`, in its order; each runs whatever the earlier ones found. */
  method CheckTargets(shell: Shell) returns (ok: bool)
    modifies shell
    ensures shell.ran == old(shell.ran) + [TargetRun(WorkIn), TargetRun(WorkOut), TargetRun(PublicIn), TargetRun(PublicOut)]
    ensures ok <==> ObservedTarget(shell, WorkIn) == Continue && ObservedTarget(shell, WorkOut) == Reject
                    && ObservedTarget(shell, PublicIn) == Continue && ObservedTarget(shell, PublicOut) == Reject
  {
    ok := CheckTarget(shell, WorkIn, Continue);
    var workOut := CheckTarget(shell, WorkOut, Reject);
    ok := workOut && ok;
    var publicIn := CheckTarget(shell, PublicIn, Continue);
    ok := publicIn && ok;
    var publicOut := CheckTarget(shell, PublicOut, Reject);
    ok := publicOut && ok;
  }
}
