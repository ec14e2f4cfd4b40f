/**
 * `nilrt_snac._common`: the distribution name read from `/etc/os-release`,
 * and the mode and ownership checks the `verify` steps apply to files.
 */
module Common {
  import opened Wrappers
  import opened Text
  import opened SnacErrors
  import opened Host

  const OsRelease := "/etc/os-release"

  // ---------------------------------------------------------------------------
  // get_distro
  // ---------------------------------------------------------------------------

  /** Python `line.split("=")[1].strip()` for a line that starts with `ID=`. */
  function IdValue(line: string): (r: string)
    requires StartsWith(line, "ID=")
    ensures r == Strip(Split(line[3..], '=')[0])
  {
    assert line == "ID" + "=" + line[3..];
    SplitAroundSeparator("ID", line[3..], '=');
    Strip(Split(line, '=')[1])
  }

  /** The value of the first line starting with `ID=`, if any. */
  function DistroIn(lines: seq<string>): Option<string> {
    if |lines| == 0 then None
    else if StartsWith(lines[0], "ID=") then Some(IdValue(lines[0]))
    else DistroIn(lines[1..])
  }

  /**
   * What `get_distro()` returns for a given file system: the file is opened in
   * text mode, so a "\r" or "\r\n" ends a line as "\n" does.
   */
  function DistroOf(files: map<string, FileEntry>): Option<string> {
    if OsRelease in files then DistroIn(Lines(Universal(files[OsRelease].content))) else None
  }

  lemma {:induction false} DistroNone(lines: seq<string>)
    ensures DistroIn(lines).None? <==> forall k :: 0 <= k < |lines| ==> !StartsWith(lines[k], "ID=")
  {
    if |lines| > 0 && !StartsWith(lines[0], "ID=") {
      var tail := lines[1..];
      DistroNone(tail);
      assert DistroIn(lines) == DistroIn(tail);
      assert forall k :: 1 <= k < |lines| ==> lines[k] == tail[k - 1];
    }
  }

  /** The position of the line `DistroIn` reads: the first `ID=` line. */
  lemma {:induction false} DistroLine(lines: seq<string>) returns (k: nat)
    requires DistroIn(lines).Some?
    ensures k < |lines| && StartsWith(lines[k], "ID=")
    ensures forall j :: 0 <= j < k ==> !StartsWith(lines[j], "ID=")
    ensures DistroIn(lines).value == IdValue(lines[k])
  {
    if StartsWith(lines[0], "ID=") {
      k := 0;
    } else {
      var tail := lines[1..];
      assert DistroIn(lines) == DistroIn(tail);
      var t := DistroLine(tail);
      k := t + 1;
      assert lines[k] == tail[t];
      assert forall j :: 1 <= j < k ==> lines[j] == tail[j - 1];
    }
  }

  /** `DistroIn` is the value of the first `ID=` line, and None when there is no such line. */
  lemma DistroIsFirstIdLine(lines: seq<string>)
    ensures DistroIn(lines).None? <==> forall k :: 0 <= k < |lines| ==> !StartsWith(lines[k], "ID=")
    ensures DistroIn(lines).Some? ==>
      exists k :: 0 <= k < |lines| && StartsWith(lines[k], "ID=")
        && (forall j :: 0 <= j < k ==> !StartsWith(lines[j], "ID="))
        && DistroIn(lines).value == IdValue(lines[k])
  {
    DistroNone(lines);
    if DistroIn(lines).Some? {
      var k := DistroLine(lines);
    }
  }

  /**
   * An `ID=` line whose value has no `=`, no newline and no surrounding
   * whitespace yields that value, however the file goes on.
   */
  lemma DistroOfIdLine(value: string, rest: string)
    requires '=' !in value && '\n' !in value
    requires |value| > 0 ==> !IsSpace(value[0]) && !IsSpace(value[|value| - 1])
    ensures DistroIn(Lines("ID=" + value + "\n" + rest)) == Some(value)
  {
    var line := "ID=" + value;
    assert "ID=" + value + "\n" + rest == line + ['\n'] + rest;
    assert '\n' !in line;
    SplitAppendLine(line, rest, '\n');
    IdLineValue(value);
  }

  lemma IdLineValue(value: string)
    requires '=' !in value
    requires |value| > 0 ==> !IsSpace(value[0]) && !IsSpace(value[|value| - 1])
    ensures StartsWith("ID=" + value, "ID=") && IdValue("ID=" + value) == value
  {
    assert ("ID=" + value)[3..] == value;
    NoSeparatorSplit(value, '=');
    StripAround("", value, "");
    assert "" + value + "" == value;
  }

  /**
   * A line ended by a carriage return is a line of its own in the text-mode
   * read: an `ID=` line after it is found (`"NAME=x\rID=nilrt\n"` gives `nilrt`).
   */
  lemma IdLineAfterCarriageReturn(line: string, value: string, rest: string)
    requires '\r' !in line && '\n' !in line && !StartsWith(line, "ID=")
    requires '=' !in value && '\n' !in value && '\r' !in value
    requires |value| > 0 ==> !IsSpace(value[0]) && !IsSpace(value[|value| - 1])
    ensures DistroIn(Lines(Universal(line + "\r" + "ID=" + value + "\n" + rest))) == Some(value)
  {
    var after := "ID=" + value + "\n" + rest;
    assert line + "\r" + "ID=" + value + "\n" + rest == line + "\r" + after;
    assert after[0] == 'I';
    CarriageReturnEndsLine(line, after);
    var head := "ID=" + value + "\n";
    assert after == head + rest;
    assert '\r' !in head;
    UniversalPrefix(head, rest);
    assert Universal(after) == "ID=" + value + "\n" + Universal(rest);
    OtherLinesSkipped(line, Lines(Universal(after)));
    DistroOfIdLine(value, Universal(rest));
  }

  /** Only a line starting with `ID=` counts: `VERSION_ID=` lines and the like are skipped. */
  lemma OtherLinesSkipped(line: string, rest: seq<string>)
    requires !StartsWith(line, "ID=")
    ensures DistroIn([line] + rest) == DistroIn(rest)
  {
    assert ([line] + rest)[1..] == rest;
  }

  /** `get_distro()`: reads `/etc/os-release` line by line and stops at the first `ID=` line. */
  method GetDistro(fs: FileSystem) returns (r: Option<string>)
    ensures r == DistroOf(fs.files)
  {
    if OsRelease !in fs.files {
      return None;
    }
    var lines := Lines(Universal(fs.files[OsRelease].content));
    var i := 0;
    while i < |lines|
      invariant 0 <= i <= |lines|
      invariant DistroIn(lines[i..]) == DistroIn(lines)
    {
      if StartsWith(lines[i], "ID=") {
        return Some(IdValue(lines[i]));
      }
      assert lines[i..][1..] == lines[i + 1..];
      i := i + 1;
    }
    return None;
  }

  // ---------------------------------------------------------------------------
  // Ownership and mode checks
  // ---------------------------------------------------------------------------

  /** `os.stat(path)` on a file that does not exist. */
  function NoSuchFile(path: string): Failure {
    OsError(FileNotFound, path)
  }

  /** `_check_permissions(path, expected)`: compares only `S_IMODE` of the mode. */
  function CheckPermissions(files: map<string, FileEntry>, path: string, expected: int): (r: Result<bool, Failure>)
    ensures r.Err? <==> path !in files
    ensures r.Err? ==> r.error == NoSuchFile(path)
    ensures r.Ok? ==> (r.value <==> PermissionBits(files[path].mode) == expected)
  {
    if path !in files then Err(NoSuchFile(path))
    else Ok(PermissionBits(files[path].mode) == expected)
  }

  /** The file-type bits do not take part: a chmod to `m` satisfies the check for `m`. */
  lemma ChmodSatisfiesCheck(files: map<string, FileEntry>, path: string, m: int)
    requires path in files && 0 <= m < 0x1000
    ensures CheckPermissions(files[path := files[path].(mode := Chmodded(files[path].mode, m))], path, m) == Ok(true)
  {
  }

  /** A mode outside `0..0o7777` never passes the check. */
  lemma CheckRejectsWideMode(files: map<string, FileEntry>, path: string, expected: int)
    requires path in files && !(0 <= expected < 0x1000)
    ensures CheckPermissions(files, path, expected) == Ok(false)
  {
  }

  /** `_check_group_ownership(path, group)`: the name `getgrgid` gives for the file's group. */
  function CheckGroupOwnership(files: map<string, FileEntry>, groups: seq<Account>, path: string, group: string): (r: Result<bool, Failure>)
    ensures path !in files ==> r == Err(NoSuchFile(path))
    ensures path in files ==> (r.Err? <==> NameOf(groups, files[path].gid).None?)
    ensures r.Ok? ==> (r.value <==> FirstNamedAs(groups, files[path].gid, group))
  {
    if path !in files then Err(NoSuchFile(path))
    else
      var name := NameOf(groups, files[path].gid);
      if name.None? then Err(KeyError(IntToString(files[path].gid)))
      else
        FirstNamed(groups, files[path].gid, group);
        Ok(name.value == group)
  }

  /**
   * `_check_owner(path, owner)`: looks the file's uid up in the GROUP
   * database (`grp.getgrgid`), so it compares the owner with the name of the
   * group that happens to share the uid's number.
   */
  function CheckOwner(files: map<string, FileEntry>, groups: seq<Account>, path: string, owner: string): (r: Result<bool, Failure>)
    ensures path !in files ==> r == Err(NoSuchFile(path))
    ensures path in files ==> (r.Err? <==> NameOf(groups, files[path].uid).None?)
    ensures r.Ok? ==> (r.value <==> FirstNamedAs(groups, files[path].uid, owner))
  {
    if path !in files then Err(NoSuchFile(path))
    else
      var name := NameOf(groups, files[path].uid);
      if name.None? then Err(KeyError(IntToString(files[path].uid)))
      else
        FirstNamed(groups, files[path].uid, owner);
        Ok(name.value == owner)
  }

  /** The first entry with id `id` is called `name`. */
  predicate FirstNamedAs(entries: seq<Account>, id: int, name: string) {
    exists k :: 0 <= k < |entries| && entries[k] == Account(name, id) && forall j :: 0 <= j < k ==> entries[j].id != id
  }

  /** The position of the entry `NameOf` reports: the first one with the id. */
  lemma {:induction false} FirstMatch(entries: seq<Account>, id: int) returns (k: nat)
    requires NameOf(entries, id).Some?
    ensures k < |entries| && entries[k] == Account(NameOf(entries, id).value, id)
    ensures forall j :: 0 <= j < k ==> entries[j].id != id
  {
    if entries[0].id == id {
      k := 0;
    } else {
      var tail := entries[1..];
      var t := FirstMatch(tail, id);
      k := t + 1;
      assert entries[k] == tail[t];
      assert forall j :: 1 <= j < k ==> entries[j] == tail[j - 1];
    }
  }

  /** `NameOf` names the first entry with the id. */
  lemma FirstNamed(entries: seq<Account>, id: int, name: string)
    requires NameOf(entries, id).Some?
    ensures NameOf(entries, id).value == name <==> FirstNamedAs(entries, id, name)
  {
    var k := FirstMatch(entries, id);
    if FirstNamedAs(entries, id, name) {
      var other :| 0 <= other < |entries| && entries[other] == Account(name, id)
        && forall j :: 0 <= j < other ==> entries[j].id != id;
      assert other == k;
    }
  }

  /** The owner check never consults the user database: it agrees with the group check on the uid. */
  lemma OwnerCheckUsesGroupNames(files: map<string, FileEntry>, groups: seq<Account>, path: string, owner: string)
    requires path in files
    ensures CheckOwner(files, groups, path, owner).Ok? ==>
      CheckOwner(files, groups, path, owner)
        == CheckGroupOwnership(files[path := files[path].(gid := files[path].uid)], groups, path, owner)
  {
  }
}
