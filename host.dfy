/**
 * The machine the tool runs on, as far as the tool observes or changes it:
 * files with their mode and owner, the account databases, and the processes it
 * starts. The tool runs as root, so a newly written file belongs to uid 0 and
 * gid 0 and gets mode 0o644 (the default umask 0o022 applied to 0o666).
 */
module Host {
  import opened Wrappers
  import opened SnacErrors

  /** `stat.S_IFREG`: the file-type bits of a regular file. */
  const RegularFileType := 0x8000
  /** Mode of a file created by `write_text`/`open(..., "w")`. */
  const NewFileMode := RegularFileType + 0x1A4

  /** A file: its text, `st_mode` (type and permission bits), `st_uid`, `st_gid`. */
  datatype FileEntry = FileEntry(content: string, mode: int, uid: int, gid: int)

  /** `stat.S_IMODE(mode)`: the permission bits, `mode & 0o7777`. */
  function PermissionBits(mode: int): (r: int)
    ensures 0 <= r < 0x1000
    ensures (mode - r) % 0x1000 == 0
  {
    mode % 0x1000
  }

  /** `os.chmod(path, m)`: keep the type bits, replace the permission bits by `m & 0o7777`. */
  function Chmodded(mode: int, m: int): (r: int)
    ensures PermissionBits(r) == PermissionBits(m)
    ensures r / 0x1000 == mode / 0x1000
  {
    mode / 0x1000 * 0x1000 + m % 0x1000
  }

  class FileSystem {
    var files: map<string, FileEntry>

    constructor(initial: map<string, FileEntry>)
      ensures files == initial
    {
      files := initial;
    }

    /** `pathlib.Path(path).exists()` / `os.path.exists(path)`. */
    predicate Exists(path: string)
      reads this
    {
      path in files
    }

    /** `Path.write_text(text)`: an existing file keeps its mode and owner. */
    method WriteText(path: string, text: string)
      modifies this
      ensures path in old(files) ==> files == old(files)[path := old(files)[path].(content := text)]
      ensures path !in old(files) ==> files == old(files)[path := FileEntry(text, NewFileMode, 0, 0)]
    {
      if path in files {
        files := files[path := files[path].(content := text)];
      } else {
        files := files[path := FileEntry(text, NewFileMode, 0, 0)];
      }
    }

    /** `rm -f path`. */
    method Delete(path: string)
      modifies this
      ensures files == old(files) - {path}
    {
      files := files - {path};
    }

    /** `Path.chmod(m)` on an existing file. */
    method Chmod(path: string, m: int)
      requires path in files
      modifies this
      ensures files == old(files)[path := old(files)[path].(mode := Chmodded(old(files)[path].mode, m))]
    {
      files := files[path := files[path].(mode := Chmodded(files[path].mode, m))];
    }

    /** `os.chown(path, uid, gid)` on an existing file. */
    method Chown(path: string, uid: int, gid: int)
      requires path in files
      modifies this
      ensures files == old(files)[path := old(files)[path].(uid := uid, gid := gid)]
    {
      files := files[path := files[path].(uid := uid, gid := gid)];
    }
  }

  /** An entry of `/etc/passwd` or `/etc/group`. */
  datatype Account = Account(name: string, id: int)

  /** The id of the first entry called `name`, as `getpwnam`/`getgrnam` find it. */
  function IdOf(entries: seq<Account>, name: string): (r: Option<int>)
    ensures r.None? <==> forall k :: 0 <= k < |entries| ==> entries[k].name != name
    ensures r.Some? ==> exists k :: 0 <= k < |entries| && entries[k] == Account(name, r.value)
  {
    if |entries| == 0 then None
    else if entries[0].name == name then Some(entries[0].id)
    else
      var r := IdOf(entries[1..], name);
      assert r.Some? ==> exists k :: 0 <= k < |entries[1..]| && entries[1..][k] == Account(name, r.value);
      r
  }

  /** The name of the first entry with id `id`, as `getgrgid` finds it. */
  function NameOf(entries: seq<Account>, id: int): (r: Option<string>)
    ensures r.None? <==> forall k :: 0 <= k < |entries| ==> entries[k].id != id
    ensures r.Some? ==> exists k :: 0 <= k < |entries| && entries[k] == Account(r.value, id)
  {
    if |entries| == 0 then None
    else if entries[0].id == id then Some(entries[0].name)
    else
      var r := NameOf(entries[1..], id);
      assert r.Some? ==> exists k :: 0 <= k < |entries[1..]| && entries[1..][k] == Account(r.value, id);
      r
  }

  /** The user and group databases. */
  class Accounts {
    var users: seq<Account>
    var groups: seq<Account>

    constructor(users: seq<Account>, groups: seq<Account>)
      ensures this.users == users && this.groups == groups
    {
      this.users := users;
      this.groups := groups;
    }

    /** A successful `groupadd name` appends the group with the id the system picks. */
    method AddGroup(name: string, id: int)
      modifies this
      ensures users == old(users) && groups == old(groups) + [Account(name, id)]
    {
      groups := groups + [Account(name, id)];
    }
  }

  /** A `subprocess.run(...)` whose status the caller does not look at: it succeeds or raises. */
  function Completed(r: Result<int, Failure>): (c: Result<(), Failure>)
    ensures c.Ok? <==> r.Ok?
    ensures c.Err? ==> c.error == r.error
  {
    if r.Ok? then Ok(()) else Err(r.error)
  }

  /**
   * The processes the tool starts. What a command prints and the status it
   * exits with are fixed functions of its argument list; programs in `missing`
   * are not installed, so starting them raises `FileNotFoundError`.
   */
  class Shell {
    /** Every command started so far, in order. */
    var ran: seq<seq<string>>
    const exitCode: seq<string> -> int
    const output: seq<string> -> string
    const missing: set<string>

    constructor(exitCode: seq<string> -> int, output: seq<string> -> string, missing: set<string>)
      ensures ran == [] && this.exitCode == exitCode && this.output == output && this.missing == missing
    {
      ran := [];
      this.exitCode := exitCode;
      this.output := output;
      this.missing := missing;
    }

    /** What `subprocess.run(cmd, check=check)` returns or raises. */
    function Outcome(cmd: seq<string>, check: bool): (r: Result<int, Failure>)
      requires |cmd| >= 1
      ensures r.Err? <==> cmd[0] in missing || (check && exitCode(cmd) != 0)
      ensures r.Ok? ==> r.value == exitCode(cmd)
    {
      if cmd[0] in missing then Err(OsError(FileNotFound, cmd[0]))
      else if check && exitCode(cmd) != 0 then Err(CalledProcessError(cmd, exitCode(cmd)))
      else Ok(exitCode(cmd))
    }

    /** `subprocess.run(cmd, check=check)`: the exit status, or the exception raised. */
    method Run(cmd: seq<string>, check: bool) returns (r: Result<int, Failure>)
      requires |cmd| >= 1
      modifies this
      ensures ran == old(ran) + [cmd]
      ensures r == Outcome(cmd, check)
    {
      ran := ran + [cmd];
      r := Outcome(cmd, check);
    }

    /** `subprocess.getoutput(command)`: runs `/bin/sh -c command`, never raises. */
    method GetOutput(command: string) returns (out: string)
      modifies this
      ensures ran == old(ran) + [["/bin/sh", "-c", command]]
      ensures out == output(["/bin/sh", "-c", command])
    {
      ran := ran + [["/bin/sh", "-c", command]];
      out := output(["/bin/sh", "-c", command]);
    }
  }

  // ---------------------------------------------------------------------------
  // Runs of checked commands
  // ---------------------------------------------------------------------------

  /** Checked commands run in order, up to and including the first that fails. */
  function CheckedRuns(shell: Shell, cmds: seq<seq<string>>): (ran: seq<seq<string>>)
    requires forall c :: c in cmds ==> |c| >= 1
    ensures |ran| <= |cmds| && ran == cmds[..|ran|]
  {
    if |cmds| == 0 then []
    else if shell.Outcome(cmds[0], true).Err? then [cmds[0]]
    else
      var rest := CheckedRuns(shell, cmds[1..]);
      assert [cmds[0]] + cmds[1..][..|rest|] == cmds[..|rest| + 1];
      [cmds[0]] + rest
  }

  /** The outcome of running checked commands in order: the first failure, if any. */
  function CheckedResult(shell: Shell, cmds: seq<seq<string>>): (r: Result<(), Failure>)
    requires forall c :: c in cmds ==> |c| >= 1
    ensures r.Ok? <==> forall c :: c in cmds ==> shell.Outcome(c, true).Ok?
    ensures r.Ok? ==> CheckedRuns(shell, cmds) == cmds
    ensures r.Err? ==> exists c :: c in cmds && shell.Outcome(c, true) == Err(r.error)
  {
    if |cmds| == 0 then Ok(())
    else if shell.Outcome(cmds[0], true).Err? then Err(shell.Outcome(cmds[0], true).error)
    else
      var rest := CheckedResult(shell, cmds[1..]);
      assert forall c :: c in cmds ==> c == cmds[0] || c in cmds[1..];
      rest
  }

  /** Running checked commands one list after another is running the two lists joined. */
  lemma {:induction false} CheckedAppend(shell: Shell, a: seq<seq<string>>, b: seq<seq<string>>)
    requires forall c :: c in a ==> |c| >= 1
    requires forall c :: c in b ==> |c| >= 1
    ensures forall c :: c in a + b ==> |c| >= 1
    ensures CheckedRuns(shell, a + b)
      == CheckedRuns(shell, a) + (if CheckedResult(shell, a).Ok? then CheckedRuns(shell, b) else [])
    ensures CheckedResult(shell, a + b)
      == (if CheckedResult(shell, a).Ok? then CheckedResult(shell, b) else CheckedResult(shell, a))
  {
    if |a| > 0 {
      assert (a + b)[0] == a[0];
      assert (a + b)[1..] == a[1..] + b;
      CheckedAppend(shell, a[1..], b);
    } else {
      assert a + b == b;
    }
  }

  /** Running the first command successfully leaves the others to run. */
  lemma CheckedAdvance(shell: Shell, history: seq<seq<string>>, cmds: seq<seq<string>>)
    requires |cmds| >= 1 && forall c :: c in cmds ==> |c| >= 1
    requires shell.Outcome(cmds[0], true).Ok?
    ensures history + CheckedRuns(shell, cmds) == (history + [cmds[0]]) + CheckedRuns(shell, cmds[1..])
    ensures CheckedResult(shell, cmds) == CheckedResult(shell, cmds[1..])
  {
    var rest := CheckedRuns(shell, cmds[1..]);
    assert CheckedRuns(shell, cmds) == [cmds[0]] + rest;
    RunsAssociate(history, [cmds[0]], rest);
  }

  lemma RunsAssociate(a: seq<seq<string>>, b: seq<seq<string>>, c: seq<seq<string>>)
    ensures a + (b + c) == (a + b) + c
  {
  }

  /** A failing first command ends the run with its failure. */
  lemma CheckedStop(shell: Shell, history: seq<seq<string>>, cmds: seq<seq<string>>)
    requires |cmds| >= 1 && forall c :: c in cmds ==> |c| >= 1
    requires shell.Outcome(cmds[0], true).Err?
    ensures history + CheckedRuns(shell, cmds) == history + [cmds[0]]
    ensures CheckedResult(shell, cmds) == Err(shell.Outcome(cmds[0], true).error)
  {
  }

  /**
   * A straight run of checked `subprocess.run(cmd, check=True)` calls: each
   * command is started in turn and the first failure propagates.
   */
  method RunChecked(shell: Shell, cmds: seq<seq<string>>) returns (r: Result<(), Failure>)
    requires forall c :: c in cmds ==> |c| >= 1
    modifies shell
    ensures shell.ran == old(shell.ran) + CheckedRuns(shell, cmds)
    ensures r == CheckedResult(shell, cmds)
  {
    var i := 0;
    while i < |cmds|
      invariant 0 <= i <= |cmds|
      invariant old(shell.ran) + CheckedRuns(shell, cmds) == shell.ran + CheckedRuns(shell, cmds[i..])
      invariant CheckedResult(shell, cmds) == CheckedResult(shell, cmds[i..])
    {
      var todo := cmds[i..];
      assert todo[0] == cmds[i] && todo[1..] == cmds[i + 1..];
      ghost var before := shell.ran;
      var status := shell.Run(cmds[i], true);
      if status.Err? {
        CheckedStop(shell, before, todo);
        return Err(status.error);
      }
      CheckedAdvance(shell, before, todo);
      i := i + 1;
    }
    return Ok(());
  }
}
