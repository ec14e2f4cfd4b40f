/**
 * The `nilrt-snac` entry point (`nilrt_snac/__main__.py`): the consent
 * prompt and configure loop, the verify aggregation, and the exit-code
 * cascade of `main`.
 *
 * Each entry of `CONFIGS` is represented by what its `configure` or `verify`
 * call returns or raises; the per-step behaviour is modelled in the modules
 * of the individual steps.
 */
module Cli {
  import opened Wrappers
  import opened Text
  import opened SnacErrors
  import opened Host
  import Opkg
  import OpkgLegacy
  import SysApiConfig

  /** The steps of `CONFIGS`, in the order both commands visit them. */
  const Configs := ["ntp", "opkg", "wireguard", "cryptsetup", "niauth", "wifi", "faillock", "graphical",
                    "console", "sysapi", "tmux", "pwquality", "ssh", "sudo", "firewall", "auditd", "syslog"]

  datatype Command = ConfigureCmd | VerifyCmd

  /** The parsed command line: the sub-command, `-y`, `-v`, `-n` and `-V`. */
  datatype Args = Args(cmd: Option<Command>, yes: bool, verbose: bool, dryRun: bool, version: bool)

  datatype LogLevel = Info | Debug

  const UsageMessage := "Command required: {configure, verify}, see " + "--help" + " for more information."

  /** The level `main` hands to `logging.basicConfig`. */
  function LevelOf(args: Args): (l: LogLevel)
    ensures l == Debug <==> args.verbose
    ensures l == Info <==> !args.verbose
  {
    if args.verbose then Debug else Info
  }

  /**
   * Whether `_configure` goes ahead: `--yes` stands for the answer "y";
   * otherwise the typed answer, lower-cased but not stripped, must be "y" or
   * "yes".
   */
  predicate Consents(args: Args, answer: string) {
    var consent := if args.yes then "y" else answer;
    Lower(consent) in ["y", "yes"]
  }

  /** Every capitalisation of "y" and "yes" is consent, and nothing else is. */
  lemma ConsentAnswers(args: Args, answer: string)
    requires !args.yes
    ensures Consents(args, answer) <==>
      (|answer| == 1 && answer[0] in {'y', 'Y'}) ||
      (|answer| == 3 && answer[0] in {'y', 'Y'} && answer[1] in {'e', 'E'} && answer[2] in {'s', 'S'})
  {
    var l := Lower(answer);
    if |answer| == 1 {
      assert l == [l[0]];
    } else if |answer| == 3 {
      assert l == [l[0], l[1], l[2]];
    }
  }

  /** The empty answer (just Enter, the "N" default) and padded answers are refusals. */
  lemma RefusedAnswers(args: Args)
    requires !args.yes
    ensures !Consents(args, "") && !Consents(args, "n") && !Consents(args, " y") && !Consents(args, "y ")
    ensures Consents(args.(yes := true), "")
  {
    ConsentAnswers(args, "");
    ConsentAnswers(args, "n");
    ConsentAnswers(args, " y");
    ConsentAnswers(args, "y ");
    assert Lower("y") == "y";
  }

  /** The index of the first step that raised, if any. */
  function FirstError<T>(outcomes: seq<Result<T, Failure>>): (k: Option<nat>)
    ensures k.Some? ==> k.value < |outcomes| && outcomes[k.value].Err?
    ensures k.Some? ==> forall j :: 0 <= j < k.value ==> outcomes[j].Ok?
    ensures k.None? <==> forall j :: 0 <= j < |outcomes| ==> outcomes[j].Ok?
  {
    if |outcomes| == 0 then None
    else if outcomes[0].Err? then Some(0)
    else match FirstError(outcomes[1..])
      case None => None
      case Some(k) => Some(k + 1)
  }

  /** How many steps a loop that stops at the first exception calls. */
  function Called<T>(outcomes: seq<Result<T, Failure>>): (n: nat)
    ensures n <= |outcomes|
    ensures FirstError(outcomes).None? ==> n == |outcomes|
    ensures FirstError(outcomes).Some? ==>
      n >= 1 && outcomes[n - 1].Err? && forall j :: 0 <= j < n - 1 ==> outcomes[j].Ok?
  {
    match FirstError(outcomes)
    case None => |outcomes|
    case Some(k) => k + 1
  }

  /** What the configure loop returns or raises, given each step's outcome. */
  function ConfigureLoopResult(outcomes: seq<Result<(), Failure>>): (r: Result<int, Failure>)
    ensures r.Ok? <==> forall j :: 0 <= j < |outcomes| ==> outcomes[j].Ok?
    ensures r.Ok? ==> r.value == ExOk
    ensures r.Err? ==> exists j :: 0 <= j < |outcomes| && outcomes[j] == Err(r.error)
  {
    match FirstError(outcomes)
    case None => Ok(ExOk)
    case Some(k) => Err(outcomes[k].error)
  }

  /** Every step's check passed. */
  predicate AllPass(outcomes: seq<Result<bool, Failure>>) {
    forall j :: 0 <= j < |outcomes| ==> outcomes[j].Ok? && outcomes[j].value
  }

  /** What `_verify` returns or raises, given each step's `verify` outcome. */
  function VerifyResult(outcomes: seq<Result<bool, Failure>>): (r: Result<int, Failure>)
    ensures r == Ok(ExOk) <==> AllPass(outcomes)
    ensures FirstError(outcomes).None? && !AllPass(outcomes) ==> r == Err(SnacError(ExCheckFailure))
    ensures FirstError(outcomes).Some? ==> r == Err(outcomes[FirstError(outcomes).value].error)
  {
    match FirstError(outcomes)
    case Some(k) => Err(outcomes[k].error)
    case None =>
      if forall j :: 0 <= j < |outcomes| ==> outcomes[j].value then Ok(ExOk)
      else Err(SnacError(ExCheckFailure))
  }

  /** The outcome of `opkg_helper.update()` on the older helper. */
  function UpdateResult(shell: Shell): (r: Result<(), Failure>)
    ensures r.Ok? <==> Opkg.RunOutcome(shell, ["update"]).Ok?
    ensures r.Err? ==> r.error == Opkg.RunOutcome(shell, ["update"]).error
  {
    var out := Opkg.RunOutcome(shell, ["update"]);
    if out.Ok? then Ok(()) else Err(out.error)
  }

  /** What `_configure` returns or raises. */
  function ConfigureResult(args: Args, answer: string, update: Result<(), Failure>,
                           outcomes: seq<Result<(), Failure>>): (r: Result<int, Failure>)
    ensures !Consents(args, answer) ==> r == Ok(ExOk)
    ensures Consents(args, answer) && update.Err? ==> r == Err(update.error)
    ensures Consents(args, answer) && update.Ok? ==> r == ConfigureLoopResult(outcomes)
  {
    if !Consents(args, answer) then Ok(ExOk)
    else if update.Err? then Err(update.error)
    else ConfigureLoopResult(outcomes)
  }

  /**
   * `_configure(args)`: asks for consent, refreshes the feeds once through
   * the older helper, then calls every step's `configure` in order. The
   * first exception stops the loop and leaves the function.
   */
  method Configure(args: Args, answer: string, legacy: OpkgLegacy.OpkgHelper, shell: Shell,
                   outcomes: seq<Result<(), Failure>>) returns (r: Result<int, Failure>, called: nat)
    modifies shell
    ensures !Consents(args, answer) ==> shell.ran == old(shell.ran) && called == 0
    ensures Consents(args, answer) ==> shell.ran == old(shell.ran) + [["opkg", "update"]]
    ensures Consents(args, answer) && UpdateResult(shell).Err? ==> called == 0
    ensures Consents(args, answer) && UpdateResult(shell).Ok? ==> called == Called(outcomes)
    ensures r == ConfigureResult(args, answer, UpdateResult(shell), outcomes)
  {
    var consent := if args.yes then "y" else answer;
    called := 0;
    if Lower(consent) !in ["y", "yes"] {
      return Ok(ExOk), 0;
    }
    var updated := legacy.Update(shell);
    if updated.Err? {
      return Err(updated.error), 0;
    }
    var i := 0;
    while i < |outcomes|
      invariant 0 <= i <= |outcomes|
      invariant forall j :: 0 <= j < i ==> outcomes[j].Ok?
      invariant called == i
    {
      called := called + 1;
      if outcomes[i].Err? {
        return Err(outcomes[i].error), called;
      }
      i := i + 1;
    }
    r := Ok(ExOk);
  }

  /**
   * `_verify(args)`: calls every step's `verify`, also after one has failed,
   * and raises `SNACError(EX_CHECK_FAILURE)` when any returned False. Only an
   * exception from a step cuts the loop short.
   */
  method Verify(outcomes: seq<Result<bool, Failure>>) returns (r: Result<int, Failure>, called: nat)
    ensures called == Called(outcomes)
    ensures r == VerifyResult(outcomes)
  {
    var valid := true;
    called := 0;
    var i := 0;
    while i < |outcomes|
      invariant 0 <= i <= |outcomes|
      invariant forall j :: 0 <= j < i ==> outcomes[j].Ok?
      invariant called == i
      invariant valid <==> forall j :: 0 <= j < i ==> outcomes[j].value
    {
      called := called + 1;
      if outcomes[i].Err? {
        return Err(outcomes[i].error), called;
      }
      var newValid := outcomes[i].value;
      valid := valid && newValid;
      i := i + 1;
    }
    if !valid {
      return Err(SnacError(ExCheckFailure)), called;
    }
    r := Ok(ExOk);
  }

  /** `except SNACError as e: return e.return_code`; other exceptions leave `main`. */
  function Caught(r: Result<int, Failure>): (c: Result<int, Failure>)
    ensures r.Err? && r.error.SnacError? ==> c == Ok(r.error.code)
    ensures !(r.Err? && r.error.SnacError?) ==> c == r
  {
    if r.Err? && r.error.SnacError? then Ok(r.error.code) else r
  }

  /**
   * What `main` returns or raises: `--version` wins over everything, a
   * missing command is a usage error, the prerequisites are checked only
   * outside a dry run, and a `SNACError` from them or from the command
   * becomes the exit code.
   */
  function MainResult(args: Args, answer: string, prereqs: Result<(), Failure>, update: Result<(), Failure>,
                      configured: seq<Result<(), Failure>>, verified: seq<Result<bool, Failure>>): (r: Result<int, Failure>)
    ensures args.version ==> r == Ok(ExOk)
    ensures !args.version && args.cmd.None? ==> r == Ok(ExUsage)
    ensures !args.version && args.cmd.Some? && !args.dryRun && prereqs.Err? ==> r == Caught(Err(prereqs.error))
    ensures !args.version && args.cmd == Some(VerifyCmd) && (args.dryRun || prereqs.Ok?) ==>
      r == Caught(VerifyResult(verified))
    ensures !args.version && args.cmd == Some(ConfigureCmd) && (args.dryRun || prereqs.Ok?) ==>
      r == Caught(ConfigureResult(args, answer, update, configured))
  {
    if args.version then Ok(ExOk)
    else if args.cmd.None? then Ok(ExUsage)
    else if !args.dryRun && prereqs.Err? then Caught(Err(prereqs.error))
    else if args.cmd == Some(VerifyCmd) then Caught(VerifyResult(verified))
    else Caught(ConfigureResult(args, answer, update, configured))
  }

  /**
   * `main(argv)` with the older helper's dry-run flag set, as written. The
   * newer helper (`nilrt_snac.opkg`), which most steps use, keeps its flag
   * unset.
   */
  method PrepareHelpersAsWritten(args: Args, legacy: OpkgLegacy.OpkgHelper, helper: Opkg.OpkgHelper)
    modifies legacy
    ensures legacy.dryRun == Some(args.dryRun) && legacy.installed == old(legacy.installed)
    ensures helper.dryRun == old(helper.dryRun) && helper.installed == old(helper.installed)
  {
    legacy.SetDryRun(args.dryRun);
  }

  /**
   * As written, a freshly built newer helper still has no dry-run flag after
   * `main`'s set-up, so the SysAPI step, whose package is not yet listed,
   * would read the missing `_dry_run` attribute.
   */
  method AsWrittenLeavesHelperUnset(args: Args, legacy: OpkgLegacy.OpkgHelper, helper: Opkg.OpkgHelper)
    requires legacy != helper as object
    requires helper.dryRun == None && SysApiConfig.Package !in helper.installed
    modifies legacy
    ensures !(SysApiConfig.Package !in helper.installed ==> helper.dryRun.Some?)
  {
    PrepareHelpersAsWritten(args, legacy, helper);
  }

  /** The intended set-up: both helpers learn whether this is a dry run. */
  method PrepareHelpers(args: Args, legacy: OpkgLegacy.OpkgHelper, helper: Opkg.OpkgHelper)
    modifies legacy, helper
    ensures legacy.dryRun == Some(args.dryRun) && legacy.installed == old(legacy.installed)
    ensures helper.dryRun == Some(args.dryRun) && helper.installed == old(helper.installed)
  {
    legacy.SetDryRun(args.dryRun);
    helper.SetDryRun(args.dryRun);
  }

  /**
   * `main(argv)` after argument parsing. `prereqs` is what `verify_prereqs()`
   * would do, `answer` what the consent prompt would read, and `configured`
   * and `verified` what each step of `CONFIGS` would do when called. Both
   * helpers get the dry-run flag, which also meets the steps' demand that it
   * be set before they install or remove anything.
   */
  method RunMain(args: Args, answer: string, prereqs: Result<(), Failure>,
              legacy: OpkgLegacy.OpkgHelper, helper: Opkg.OpkgHelper, shell: Shell,
              configured: seq<Result<(), Failure>>, verified: seq<Result<bool, Failure>>)
    returns (r: Result<int, Failure>, level: LogLevel, called: nat)
    requires |configured| == |Configs| && |verified| == |Configs|
    modifies legacy, helper, shell
    ensures level == LevelOf(args)
    ensures legacy.dryRun == Some(args.dryRun) && helper.dryRun == Some(args.dryRun)
    ensures legacy.installed == old(legacy.installed) && helper.installed == old(helper.installed)
    ensures r == MainResult(args, answer, prereqs, UpdateResult(shell), configured, verified)
    ensures shell.ran == old(shell.ran) ||
      (args.cmd == Some(ConfigureCmd) && shell.ran == old(shell.ran) + [["opkg", "update"]])
    ensures args.cmd == Some(VerifyCmd) && !args.version && (args.dryRun || prereqs.Ok?) ==>
      called == Called(verified)
    ensures called > 0 ==> !args.version && args.cmd.Some? && (args.dryRun || prereqs.Ok?)
  {
    level := LevelOf(args);
    PrepareHelpers(args, legacy, helper);
    called := 0;
    if args.version {
      return Ok(ExOk), level, 0;
    }
    if args.cmd.None? {
      return Ok(ExUsage), level, 0;
    }
    if !args.dryRun && prereqs.Err? {
      return Caught(Err(prereqs.error)), level, 0;
    }
    var ret: Result<int, Failure>;
    match args.cmd.value {
      case VerifyCmd =>
        ret, called := Verify(verified);
      case ConfigureCmd =>
        ret, called := Configure(args, answer, legacy, shell, configured);
    }
    r := Caught(ret);
  }

  /** `--version` is honoured even with a command after it. */
  lemma VersionIgnoresCommand(args: Args, answer: string, prereqs: Result<(), Failure>, update: Result<(), Failure>,
                              configured: seq<Result<(), Failure>>, verified: seq<Result<bool, Failure>>)
    requires args.version
    ensures MainResult(args, answer, prereqs, update, configured, verified)
         == MainResult(args.(cmd := None), answer, prereqs, update, configured, verified)
         == Ok(ExOk)
  {
  }

  /** The usage error points the user at `--help`. */
  lemma UsageMentionsHelp()
    ensures Contains(UsageMessage, "--help")
  {
    ContainsMiddle("Command required: {configure, verify}, see ", "--help", " for more information.");
  }

  /** In a dry run the prerequisites play no part in the outcome. */
  lemma DryRunSkipsPrerequisites(args: Args, answer: string, p1: Result<(), Failure>, p2: Result<(), Failure>,
                                 update: Result<(), Failure>, configured: seq<Result<(), Failure>>,
                                 verified: seq<Result<bool, Failure>>)
    requires args.dryRun
    ensures MainResult(args, answer, p1, update, configured, verified)
         == MainResult(args, answer, p2, update, configured, verified)
  {
  }

  /**
   * `verify` whose steps all return exits with 0 when every check passed and
   * with 129 otherwise.
   */
  lemma VerifyExitCodes(args: Args, answer: string, prereqs: Result<(), Failure>, update: Result<(), Failure>,
                        configured: seq<Result<(), Failure>>, verified: seq<Result<bool, Failure>>)
    requires !args.version && args.cmd == Some(VerifyCmd) && (args.dryRun || prereqs.Ok?)
    requires FirstError(verified).None?
    ensures MainResult(args, answer, prereqs, update, configured, verified)
         == (if AllPass(verified) then Ok(ExOk) else Ok(ExCheckFailure))
  {
  }

  /** A refused `configure` exits with 0 whatever the steps would have done. */
  lemma RefusalExitsCleanly(args: Args, answer: string, prereqs: Result<(), Failure>, update: Result<(), Failure>,
                            configured: seq<Result<(), Failure>>, verified: seq<Result<bool, Failure>>)
    requires !args.version && args.cmd == Some(ConfigureCmd) && (args.dryRun || prereqs.Ok?)
    requires !Consents(args, answer)
    ensures MainResult(args, answer, prereqs, update, configured, verified) == Ok(ExOk)
  {
  }
}
