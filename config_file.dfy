/**
 * `_ConfigFile`: the text of a configuration file held in memory together with
 * the mode and owner it is to be saved with. Nothing reaches the disk before
 * `Save`. `EqualsDelimitedConfigFile` adds only the `key = value` lookup
 * `Get`, so both are one class here.
 */
module ConfigFiles {
  import opened Wrappers
  import opened Text
  import opened SnacErrors
  import Host
  import Patterns

  /** Mode of a file that does not exist yet (0o600). */
  const DefaultMode := 0x180

  // ---------------------------------------------------------------------------
  // `get`: the value of the first `key = value` line
  // ---------------------------------------------------------------------------

  /** Python `s.replace(" ", "").replace("\t", "")`. */
  function RemoveBlanks(s: string): (r: string)
    ensures forall ch :: ch in r <==> ch in s && ch != ' ' && ch != '\t'
    ensures |r| <= |s|
    ensures (forall k :: 0 <= k < |s| ==> s[k] != ' ' && s[k] != '\t') ==> r == s
  {
    if |s| == 0 then ""
    else if s[0] == ' ' || s[0] == '\t' then RemoveBlanks(s[1..])
    else [s[0]] + RemoveBlanks(s[1..])
  }

  /** Deleting spaces and tabs keeps the order of what is left: it works piece by piece. */
  lemma {:induction false} RemoveBlanksAppend(a: string, b: string)
    ensures RemoveBlanks(a + b) == RemoveBlanks(a) + RemoveBlanks(b)
    decreases |a|
  {
    if |a| > 0 {
      assert (a + b)[0] == a[0] && (a + b)[1..] == a[1..] + b;
      RemoveBlanksAppend(a[1..], b);
    } else {
      assert a + b == b;
    }
  }

  /** The line is `<key>=<value>` once spaces and tabs left of the first `=` are deleted. */
  predicate Keyed(line: string, key: string) {
    '=' in line && RemoveBlanks(line[..IndexOf(line, '=')]) == key
  }

  /** The stripped text after the first `=` of a line. */
  function ValueOf(line: string): string {
    if '=' in line then Strip(line[IndexOf(line, '=') + 1..]) else ""
  }

  /** The value of the first keyed line in `lines`, or `""` when there is none. */
  function FirstValue(lines: seq<string>, key: string): string {
    if |lines| == 0 then ""
    else if Keyed(lines[0], key) then ValueOf(lines[0])
    else FirstValue(lines[1..], key)
  }

  /** `get` is the value of the first keyed line, and `""` when no line is keyed. */
  lemma {:induction false} FirstValueIsFirstMatch(lines: seq<string>, key: string)
    ensures (forall k :: 0 <= k < |lines| ==> !Keyed(lines[k], key)) ==> FirstValue(lines, key) == ""
    ensures (exists k :: 0 <= k < |lines| && Keyed(lines[k], key)) ==>
      exists k :: 0 <= k < |lines| && Keyed(lines[k], key)
        && (forall j :: 0 <= j < k ==> !Keyed(lines[j], key)) && FirstValue(lines, key) == ValueOf(lines[k])
  {
    if forall k :: 0 <= k < |lines| ==> !Keyed(lines[k], key) {
      NoKeyedLine(lines, key);
    } else {
      var k :| 0 <= k < |lines| && Keyed(lines[k], key);
      var m := 0;
      while !Keyed(lines[m], key)
        invariant 0 <= m <= k
        invariant forall j :: 0 <= j < m ==> !Keyed(lines[j], key)
        decreases k - m
      {
        m := m + 1;
      }
      FirstKeyedLine(lines, key, m);
    }
  }

  /** With no keyed line, `get` is `""`. */
  lemma {:induction false} NoKeyedLine(lines: seq<string>, key: string)
    requires forall k :: 0 <= k < |lines| ==> !Keyed(lines[k], key)
    ensures FirstValue(lines, key) == ""
  {
    if |lines| > 0 {
      assert forall k :: 0 <= k < |lines| - 1 ==> lines[1..][k] == lines[k + 1];
      NoKeyedLine(lines[1..], key);
    }
  }

  /** `get` is the value of the first keyed line. */
  lemma {:induction false} FirstKeyedLine(lines: seq<string>, key: string, k: nat)
    requires k < |lines| && Keyed(lines[k], key)
    requires forall j :: 0 <= j < k ==> !Keyed(lines[j], key)
    ensures FirstValue(lines, key) == ValueOf(lines[k])
  {
    if k > 0 {
      assert !Keyed(lines[0], key);
      assert forall j :: 0 <= j < k - 1 ==> lines[1..][j] == lines[j + 1];
      FirstKeyedLine(lines[1..], key, k - 1);
    }
  }

  /** `EqualsDelimitedConfigFile.get(key)` on the text `config`. */
  function GetValue(config: string, key: string): string {
    FirstValue(SplitLines(config), key)
  }

  /** A `key = value` line is keyed by `key` and carries `value`. */
  lemma KeyValueLine(key: string, value: string)
    requires ' ' !in key && '\t' !in key && '=' !in key
    requires |value| > 0 ==> !IsSpace(value[0]) && !IsSpace(value[|value| - 1])
    ensures Keyed(key + " = " + value, key) && ValueOf(key + " = " + value) == value
  {
    var line := key + " = " + value;
    var i := |key| + 1;
    assert line[..i] == key + " ";
    assert line[i] == '=';
    IndexOfAt(line, '=', i);
    assert line[..i] == key + " ";
    RemoveTrailingBlank(key);
    assert line[i + 1..] == " " + value + "";
    StripAround(" ", value, "");
  }

  /** Writing `key = value` as the first line is read back by `get`. */
  lemma GetRoundTrip(key: string, value: string, rest: string)
    requires ' ' !in key && '\t' !in key && '=' !in key
    requires forall k :: 0 <= k < |key| ==> !IsLineBreak(key[k])
    requires forall k :: 0 <= k < |value| ==> !IsLineBreak(value[k])
    requires |value| > 0 ==> !IsSpace(value[0]) && !IsSpace(value[|value| - 1])
    ensures GetValue(key + " = " + value + "\n" + rest, key) == value
  {
    var line := key + " = " + value;
    forall k | 0 <= k < |line| ensures !IsLineBreak(line[k]) {
      if k < |key| { assert line[k] == key[k]; }
      else if k >= |key| + 3 { assert line[k] == value[k - |key| - 3]; }
    }
    SplitLinesFirst(line, rest);
    KeyValueLine(key, value);
  }

  lemma {:induction false} RemoveTrailingBlank(s: string)
    requires ' ' !in s && '\t' !in s
    ensures RemoveBlanks(s + " ") == s
  {
    if |s| > 0 {
      assert (s + " ")[1..] == s[1..] + " ";
      RemoveTrailingBlank(s[1..]);
      assert [s[0]] + s[1..] == s;
    }
  }

  /** A commented-out `#key=value` line is never read as `key`. */
  lemma CommentedLineIgnored(key: string, value: string)
    requires '#' !in key
    ensures !Keyed("#" + key + "=" + value, key)
  {
    var line := "#" + key + "=" + value;
    if '=' in line {
      var i := IndexOf(line, '=');
      if i > 0 {
        assert line[..i][0] == '#';
        assert '#' in RemoveBlanks(line[..i]);
      }
    }
  }

  // ---------------------------------------------------------------------------
  // `contains_exact`: a line that is the key and surrounding whitespace
  // ---------------------------------------------------------------------------

  /** The line is `key` with only whitespace before and after it. */
  predicate ExactLine(line: string, key: string) {
    exists i :: 0 <= i <= |line| - |key| && line[i..i + |key|] == key
      && AllSpace(line[..i]) && AllSpace(line[i + |key|..])
  }

  /** `^` under `re.MULTILINE`: the start of the text or just after a newline. */
  predicate LineStartAt(config: string, i: int) {
    0 <= i <= |config| && (i == 0 || config[i - 1] == '\n')
  }

  /** `$` under `re.MULTILINE`: the end of the text or just before a newline. */
  predicate LineEndAt(config: string, j: int) {
    0 <= j <= |config| && (j == |config| || config[j] == '\n')
  }

  /**
   * `^\s*{re.escape(key)}\s*$` matches with the key at `a`: whitespace, which
   * may include newlines, runs back from `a` to a line start and on from the
   * key's end to a line end.
   */
  predicate ExactMatchAt(config: string, key: string, a: int) {
    0 <= a && a + |key| <= |config| && config[a..a + |key|] == key
    && (exists i :: 0 <= i <= a && LineStartAt(config, i) && AllSpace(config[i..a]))
    && (exists j :: a + |key| <= j <= |config| && LineEndAt(config, j) && AllSpace(config[a + |key|..j]))
  }

  /** `re.search(rf'^\s*{re.escape(key)}\s*$', config, re.MULTILINE)` finds a match. */
  predicate ContainsExactIn(config: string, key: string) {
    exists a :: 0 <= a <= |config| && ExactMatchAt(config, key, a)
  }

  /** The start of the line holding position `a`. */
  function LineStart(config: string, a: nat): (p: nat)
    requires a <= |config|
    ensures LineStartAt(config, p) && p <= a && '\n' !in config[p..a]
    decreases a
  {
    if a == 0 || config[a - 1] == '\n' then a
    else
      var p := LineStart(config, a - 1);
      assert config[p..a] == config[p..a - 1] + [config[a - 1]];
      p
  }

  /** The end of the line holding position `b`. */
  function LineEnd(config: string, b: nat): (q: nat)
    requires b <= |config|
    ensures LineEndAt(config, q) && b <= q && '\n' !in config[b..q]
    decreases |config| - b
  {
    if b == |config| || config[b] == '\n' then b
    else
      var q := LineEnd(config, b + 1);
      assert config[b..q] == [config[b]] + config[b + 1..q];
      q
  }

  /** Whitespace throughout a stretch is whitespace throughout any part of it. */
  lemma SpaceWithin(t: string, x: nat, y: nat, x': nat, y': nat)
    requires x <= x' <= y' <= y <= |t| && AllSpace(t[x..y])
    ensures AllSpace(t[x'..y'])
  {
    forall k | 0 <= k < y' - x'
      ensures IsSpace(t[x'..y'][k])
    {
      assert t[x'..y'][k] == t[x..y][k + x' - x];
    }
  }

  /**
   * For a key without a newline, the pattern matches exactly when some line
   * (a piece of `config.split("\n")`) is the key with whitespace around it:
   * the whitespace `\s*` runs over on either side may cross newlines, but the
   * part of it on the key's own line is whitespace too.
   */
  lemma ContainsExactByLines(config: string, key: string)
    requires '\n' !in key
    ensures ContainsExactIn(config, key) <==> exists k :: 0 <= k < |Lines(config)| && ExactLine(Lines(config)[k], key)
  {
    if ContainsExactIn(config, key) {
      var a: nat :| a <= |config| && ExactMatchAt(config, key, a);
      var k := MatchLine(config, key, a);
    }
    if exists k :: 0 <= k < |Lines(config)| && ExactLine(Lines(config)[k], key) {
      var k :| 0 <= k < |Lines(config)| && ExactLine(Lines(config)[k], key);
      LineMatch(config, key, k);
    }
  }

  /** Pieces of a stretch `t[p..e]` are the matching stretches of `t`. */
  lemma StretchParts(t: string, p: nat, e: nat, i0: nat, n: nat)
    requires p + i0 + n <= e <= |t|
    ensures t[p..e][i0..i0 + n] == t[p + i0..p + i0 + n]
    ensures t[p..e][..i0] == t[p..p + i0]
    ensures t[p..e][i0 + n..] == t[p + i0 + n..e]
  {
    var u := t[p..e];
    assert forall m :: 0 <= m < |u| ==> u[m] == t[p + m];
    assert u[i0 + n..] == t[p + i0 + n..e];
  }

  /** No line starts strictly inside a stretch free of newlines. */
  lemma NoLineStartWithin(t: string, s: nat, a: nat, i: nat)
    requires s <= a <= |t| && '\n' !in t[s..a] && LineStartAt(t, i) && i <= a
    ensures i <= s
  {
  }

  /** No line ends strictly inside a stretch free of newlines. */
  lemma NoLineEndWithin(t: string, b: nat, e: nat, j: nat)
    requires b <= e <= |t| && '\n' !in t[b..e] && LineEndAt(t, j) && b <= j
    ensures e <= j
  {
  }

  /** The line around a match: only whitespace lies between it and the key on either side. */
  lemma MatchSurround(config: string, key: string, a: nat) returns (s: nat, e: nat)
    requires ExactMatchAt(config, key, a)
    ensures s <= a && a + |key| <= e <= |config| && LineStartAt(config, s) && LineEndAt(config, e)
    ensures '\n' !in config[s..a] && AllSpace(config[s..a])
    ensures '\n' !in config[a + |key|..e] && AllSpace(config[a + |key|..e])
  {
    var b := a + |key|;
    var i :| 0 <= i <= a && LineStartAt(config, i) && AllSpace(config[i..a]);
    var j :| b <= j <= |config| && LineEndAt(config, j) && AllSpace(config[b..j]);
    s, e := LineStart(config, a), LineEnd(config, b);
    NoLineStartWithin(config, s, a, i);
    NoLineEndWithin(config, b, e, j);
    SpaceWithin(config, i, a, s, a);
    SpaceWithin(config, b, j, b, e);
  }

  /** A match with the key at `a` puts the key, with whitespace around it, on one line. */
  lemma MatchLine(config: string, key: string, a: nat) returns (k: nat)
    requires '\n' !in key && ExactMatchAt(config, key, a)
    ensures k < |Lines(config)| && ExactLine(Lines(config)[k], key)
  {
    var s, e := MatchSurround(config, key, a);
    var b := a + |key|;
    assert config[s..e] == config[s..a] + key + config[b..e];
    k := PieceInSplit(config, '\n', s, e);
    StretchParts(config, s, e, a - s, |key|);
  }

  /** A line of `config` that is the key with whitespace around it gives a match. */
  lemma StretchMatch(config: string, key: string, p: nat, e: nat, i0: nat)
    requires p + i0 + |key| <= e && LineStartAt(config, p) && LineEndAt(config, e)
    requires config[p..e][i0..i0 + |key|] == key
    requires AllSpace(config[p..e][..i0]) && AllSpace(config[p..e][i0 + |key|..])
    ensures ExactMatchAt(config, key, p + i0)
  {
    StretchParts(config, p, e, i0, |key|);
    assert AllSpace(config[p..p + i0]) && AllSpace(config[p + i0 + |key|..e]);
  }

  /** A line that is the key with whitespace around it gives a match. */
  lemma LineMatch(config: string, key: string, k: nat)
    requires k < |Lines(config)| && ExactLine(Lines(config)[k], key)
    ensures ContainsExactIn(config, key)
  {
    var line := Lines(config)[k];
    var p := SplitPieceAt(config, '\n', k);
    var i0 := ExactLineAt(line, key);
    assert config[p..p + |line|] == line;
    StretchMatch(config, key, p, p + |line|, i0);
    assert 0 <= p + i0 <= |config| && ExactMatchAt(config, key, p + i0);
  }

  /** Where the key stands in a line that is the key with whitespace around it. */
  lemma ExactLineAt(line: string, key: string) returns (i0: nat)
    requires ExactLine(line, key)
    ensures i0 + |key| <= |line| && line[i0..i0 + |key|] == key
    ensures AllSpace(line[..i0]) && AllSpace(line[i0 + |key|..])
  {
    i0 :| 0 <= i0 <= |line| - |key| && line[i0..i0 + |key|] == key
      && AllSpace(line[..i0]) && AllSpace(line[i0 + |key|..]);
  }

  /**
   * A key alone on its lines is found, whether or not it holds newlines:
   * `contains_exact("a\nb")` holds for the text `"a\nb"`.
   */
  lemma KeyOnOwnLines(before: string, key: string, after: string)
    requires before == "" || before[|before| - 1] == '\n'
    requires after == "" || after[0] == '\n'
    ensures ContainsExactIn(before + key + after, key)
  {
    var config := before + key + after;
    var a := |before|;
    assert config[a..a + |key|] == key;
    assert LineStartAt(config, a) && AllSpace(config[a..a]);
    assert LineEndAt(config, a + |key|) && AllSpace(config[a + |key|..a + |key|]);
    assert ExactMatchAt(config, key, a);
  }

  lemma ExactLineStrips(line: string, key: string)
    requires |key| > 0 ==> !IsSpace(key[0]) && !IsSpace(key[|key| - 1])
    requires ExactLine(line, key)
    ensures Strip(line) == key
  {
    var i :| 0 <= i <= |line| - |key| && line[i..i + |key|] == key
      && AllSpace(line[..i]) && AllSpace(line[i + |key|..]);
    var pre, post := line[..i], line[i + |key|..];
    SplitThree(line, i, i + |key|);
    StripAround(pre, key, post);
  }

  lemma SplitThree(s: string, i: nat, j: nat)
    requires i <= j <= |s|
    ensures s[..i] + s[i..j] + s[j..] == s
  {
  }

  lemma StrippedIsExact(line: string, key: string)
    requires Strip(line) == key
    ensures ExactLine(line, key)
  {
    var i := |line| - |LStrip(line)|;
    assert line[i..i + |key|] == line[i..][..|key|];
  }

  /** For a key without surrounding whitespace, an exact line is one that strips to the key. */
  lemma ExactLineIsStripped(line: string, key: string)
    requires |key| > 0 ==> !IsSpace(key[0]) && !IsSpace(key[|key| - 1])
    ensures ExactLine(line, key) <==> Strip(line) == key
  {
    if ExactLine(line, key) {
      ExactLineStrips(line, key);
    }
    if Strip(line) == key {
      StrippedIsExact(line, key);
    }
  }

  /** `contains_exact` on a whole text, for a one-line key: some line strips to the key. */
  lemma ContainsExactStripped(config: string, key: string)
    ensures '\n' !in key && (|key| > 0 ==> !IsSpace(key[0]) && !IsSpace(key[|key| - 1])) ==>
      (ContainsExactIn(config, key) <==> exists k :: 0 <= k < |Lines(config)| && Strip(Lines(config)[k]) == key)
  {
    if '\n' !in key && (|key| > 0 ==> !IsSpace(key[0]) && !IsSpace(key[|key| - 1])) {
      ContainsExactByLines(config, key);
      forall k | 0 <= k < |Lines(config)|
        ensures ExactLine(Lines(config)[k], key) <==> Strip(Lines(config)[k]) == key
      {
        ExactLineIsStripped(Lines(config)[k], key);
      }
    }
  }

  /** `LiteralSearch` for any pattern, as an implication. */
  lemma LiteralSearchIf(s: string, pat: string)
    ensures '.' !in pat ==> (Patterns.Search(s, pat) <==> Text.Contains(s, pat))
  {
    if '.' !in pat {
      Patterns.LiteralSearch(s, pat);
    }
  }

  // ---------------------------------------------------------------------------
  // The in-memory configuration file
  // ---------------------------------------------------------------------------

  /** The entry `save(dry_run=False)` leaves at `path`. */
  function SavedEntry(files: map<string, Host.FileEntry>, path: string, config: string, mode: int,
                      uid: Option<int>, gid: Option<int>): (e: Host.FileEntry)
    ensures e.content == config
    ensures Host.PermissionBits(e.mode) == Host.PermissionBits(mode)
    ensures uid.Some? && gid.Some? ==> e.uid == uid.value && e.gid == gid.value
    ensures !(uid.Some? && gid.Some?) && path in files ==> e.uid == files[path].uid && e.gid == files[path].gid
    ensures !(uid.Some? && gid.Some?) && path !in files ==> e.uid == 0 && e.gid == 0
  {
    var base := if path in files then files[path] else Host.FileEntry("", Host.NewFileMode, 0, 0);
    var owned := uid.Some? && gid.Some?;
    Host.FileEntry(config, Host.Chmodded(base.mode, mode),
                   if owned then uid.value else base.uid, if owned then gid.value else base.gid)
  }

  /** The text `_ConfigFile(path)` starts with: the file's text, or empty when it does not exist. */
  function TextOf(files: map<string, Host.FileEntry>, path: string): string {
    if path in files then files[path].content else ""
  }

  /**
   * The files after `_ConfigFile(path)` is loaded, its text replaced by `text`
   * and saved, its mode and owner left as they were loaded.
   */
  function SavedAs(files: map<string, Host.FileEntry>, path: string, text: string): (r: map<string, Host.FileEntry>)
    ensures r.Keys == files.Keys + {path}
    ensures r[path].content == text
    ensures forall p :: p in files && p != path ==> r[p] == files[p]
    ensures path in files ==> Host.PermissionBits(r[path].mode) == Host.PermissionBits(files[path].mode)
                              && r[path].uid == files[path].uid && r[path].gid == files[path].gid
    ensures path !in files ==> Host.PermissionBits(r[path].mode) == DefaultMode && r[path].uid == 0 && r[path].gid == 0
  {
    var present := path in files;
    files[path := SavedEntry(files, path, text,
                             if present then files[path].mode else DefaultMode,
                             if present then Some(files[path].uid) else None,
                             if present then Some(files[path].gid) else None)]
  }

  /** Saving an existing file with its own text leaves the file system as it was. */
  lemma SavedAsUnchanged(files: map<string, Host.FileEntry>, path: string)
    requires path in files
    ensures SavedAs(files, path, files[path].content) == files
  {
    var e := files[path];
    assert Host.Chmodded(e.mode, e.mode) == e.mode;
    assert SavedAs(files, path, e.content)[path] == e;
  }

  /** Saving twice with the same text is saving once. */
  lemma SavedAsTwice(files: map<string, Host.FileEntry>, path: string, text: string)
    ensures SavedAs(SavedAs(files, path, text), path, text) == SavedAs(files, path, text)
  {
    var once := SavedAs(files, path, text);
    SavedAsUnchanged(once, path);
  }

  /** `if not contains(marker): add(block)`. */
  function AddedIfMissing(text: string, marker: string, block: string): string {
    if Patterns.Search(text, marker) then text else text + block
  }

  /** When the block holds the marker, the text holds it afterwards. */
  lemma AddedIfMissingHasMarker(text: string, marker: string, block: string)
    requires Contains(block, marker)
    ensures Patterns.Search(AddedIfMissing(text, marker, block), marker)
  {
    if !Patterns.Search(text, marker) {
      ContainsAppend(block, text, marker);
      Patterns.ContainsSearch(text + block, marker);
    }
  }

  /** When the block holds the marker, adding it a second time changes nothing. */
  lemma AddedIfMissingIdempotent(text: string, marker: string, block: string)
    requires Contains(block, marker)
    ensures AddedIfMissing(AddedIfMissing(text, marker, block), marker, block) == AddedIfMissing(text, marker, block)
  {
    AddedIfMissingHasMarker(text, marker, block);
  }

  /** Loading, adding the block when the marker is missing, and saving is idempotent. */
  lemma AddAndSaveIdempotent(files: map<string, Host.FileEntry>, path: string, marker: string, block: string)
    requires Contains(block, marker)
    ensures var once := SavedAs(files, path, AddedIfMissing(TextOf(files, path), marker, block));
      SavedAs(once, path, AddedIfMissing(TextOf(once, path), marker, block)) == once
  {
    var t := AddedIfMissing(TextOf(files, path), marker, block);
    AddedIfMissingIdempotent(TextOf(files, path), marker, block);
    SavedAsTwice(files, path, t);
  }

  class ConfigFile {
    const path: string
    var config: string
    var mode: int
    var uid: Option<int>
    var gid: Option<int>

    /**
     * Reads the file if it exists; otherwise an empty text, mode 0o600 and no
     * owner. The text is kept as stored, without the line-end translation of
     * a text-mode read.
     */
    constructor(fs: Host.FileSystem, path: string)
      ensures this.path == path
      ensures path in fs.files ==>
                config == fs.files[path].content && mode == fs.files[path].mode
                && uid == Some(fs.files[path].uid) && gid == Some(fs.files[path].gid)
      ensures path !in fs.files ==> config == "" && mode == DefaultMode && uid.None? && gid.None?
      ensures LoadedFrom(fs.files)
    {
      this.path := path;
      if path in fs.files {
        var e := fs.files[path];
        config := e.content;
        mode := e.mode;
        uid := Some(e.uid);
        gid := Some(e.gid);
      } else {
        config := "";
        mode := DefaultMode;
        uid := None;
        gid := None;
      }
    }

    /** The mode and owner are those `_ConfigFile(path)` loads from `files`. */
    ghost predicate LoadedFrom(files: map<string, Host.FileEntry>)
      reads this
    {
      mode == (if path in files then files[path].mode else DefaultMode)
      && uid == (if path in files then Some(files[path].uid) else None)
      && gid == (if path in files then Some(files[path].gid) else None)
    }

    /**
     * Dry run: nothing is written. Otherwise the text is written, the mode
     * applied, and the owner set only when both uid and gid are known.
     */
    method Save(fs: Host.FileSystem, dryRun: bool)
      modifies fs
      ensures dryRun ==> fs.files == old(fs.files)
      ensures !dryRun ==> fs.files == old(fs.files)[path := SavedEntry(old(fs.files), path, config, mode, uid, gid)]
      ensures !dryRun && LoadedFrom(old(fs.files)) ==> fs.files == SavedAs(old(fs.files), path, config)
    {
      if !dryRun {
        fs.WriteText(path, config);
        fs.Chmod(path, mode);
        if uid.Some? && gid.Some? {
          fs.Chown(path, uid.value, gid.value);
        }
      }
    }

    /** `re.sub(pattern, value, config, flags=re.MULTILINE)`, the substitution given as `rewrite`. */
    method Update(rewrite: string -> string)
      modifies this
      ensures config == rewrite(old(config))
      ensures mode == old(mode) && uid == old(uid) && gid == old(gid)
    {
      config := rewrite(config);
    }

    /** Appends `value` verbatim. */
    method Add(value: string)
      modifies this
      ensures config == old(config) + value
      ensures mode == old(mode) && uid == old(uid) && gid == old(gid)
    {
      config := config + value;
    }

    /** Asks the disk, not the buffer. */
    predicate Exists(fs: Host.FileSystem)
      reads fs
      ensures Exists(fs) <==> path in fs.files
    {
      path in fs.files
    }

    method Chmod(m: int)
      modifies this
      ensures mode == m
      ensures config == old(config) && uid == old(uid) && gid == old(gid)
    {
      mode := m;
    }

    /**
     * Resolves the user, then the group. An unknown user raises `KeyError` with
     * nothing changed; an unknown group raises it after the uid was already set.
     */
    method Chown(accounts: Host.Accounts, user: string, group: string) returns (r: Result<(), Failure>)
      modifies this
      ensures config == old(config) && mode == old(mode)
      ensures Host.IdOf(accounts.users, user).None? ==>
        r == Err(KeyError(user)) && uid == old(uid) && gid == old(gid)
      ensures Host.IdOf(accounts.users, user).Some? ==> uid == Host.IdOf(accounts.users, user)
      ensures Host.IdOf(accounts.users, user).Some? && Host.IdOf(accounts.groups, group).None? ==>
        r == Err(KeyError(group)) && gid == old(gid)
      ensures Host.IdOf(accounts.users, user).Some? && Host.IdOf(accounts.groups, group).Some? ==>
        r == Ok(()) && gid == Host.IdOf(accounts.groups, group)
    {
      var u := Host.IdOf(accounts.users, user);
      if u.None? {
        return Err(KeyError(user));
      }
      uid := u;
      var g := Host.IdOf(accounts.groups, group);
      if g.None? {
        return Err(KeyError(group));
      }
      gid := g;
      r := Ok(());
    }

    /** `bool(re.search(pattern, config))`; for a pattern without `.`, whether the text holds it literally. */
    predicate Contains(pattern: string)
      reads this
      ensures '.' !in pattern ==> (Contains(pattern) <==> Text.Contains(config, pattern))
    {
      LiteralSearchIf(config, pattern);
      Patterns.Search(config, pattern)
    }

    /**
     * Whether `^\s*key\s*$` matches under `re.MULTILINE`; for a one-line key
     * without surrounding whitespace, whether some line strips to the key.
     */
    predicate ContainsExact(key: string)
      reads this
      ensures '\n' !in key && (|key| > 0 ==> !IsSpace(key[0]) && !IsSpace(key[|key| - 1])) ==>
        (ContainsExact(key) <==> exists k :: 0 <= k < |Lines(config)| && Strip(Lines(config)[k]) == key)
    {
      ContainsExactStripped(config, key);
      ContainsExactIn(config, key)
    }

    /** The stripped value of the first line keyed by `key`, and `""` when no line is. */
    function Get(key: string): (r: string)
      reads this
      ensures (forall k :: 0 <= k < |SplitLines(config)| ==> !Keyed(SplitLines(config)[k], key)) ==> r == ""
      ensures (exists k :: 0 <= k < |SplitLines(config)| && Keyed(SplitLines(config)[k], key)) ==>
        exists k :: 0 <= k < |SplitLines(config)| && Keyed(SplitLines(config)[k], key)
          && (forall j :: 0 <= j < k ==> !Keyed(SplitLines(config)[j], key)) && r == ValueOf(SplitLines(config)[k])
    {
      FirstValueIsFirstMatch(SplitLines(config), key);
      GetValue(config, key)
    }
  }
}
