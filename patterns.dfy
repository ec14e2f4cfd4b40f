/**
 * The regular expressions the configuration steps search for and substitute.
 *
 * Every pattern the tool uses is either a literal, a literal in which `.`
 * stands for "any character but a newline", or one of the two line-anchored
 * substitutions `^src.*\/extra\/.*` and `^.*natinst.pool.ntp.org.*$` (both with
 * `re.MULTILINE`). Because neither a literal character other than a newline nor
 * `.` can match a newline, every match lies inside one line, and a
 * line-anchored substitution that runs to the end of the line empties it.
 */
module Patterns {
  import opened Text

  // ---------------------------------------------------------------------------
  // re.search for patterns whose only metacharacter is '.'
  // ---------------------------------------------------------------------------

  predicate CharMatches(p: char, c: char) {
    if p == '.' then c != '\n' else c == p
  }

  predicate MatchesAt(s: string, pat: string, i: int) {
    0 <= i && i + |pat| <= |s| && forall k :: 0 <= k < |pat| ==> CharMatches(pat[k], s[i + k])
  }

  /** Python `bool(re.search(pat, s))` for a pattern whose only metacharacter is `.`. */
  predicate Search(s: string, pat: string)
    ensures Search(s, pat) ==> |pat| <= |s|
    ensures pat == "" ==> Search(s, pat)
  {
    assert pat == "" ==> MatchesAt(s, pat, 0);
    exists i :: 0 <= i <= |s| && MatchesAt(s, pat, i)
  }

  /** A literal occurrence is always a match: `.` matches the `.` written there. */
  lemma ContainsSearch(s: string, pat: string)
    requires Contains(s, pat)
    ensures Search(s, pat)
  {
    var i :| 0 <= i <= |s| && OccursAt(s, pat, i);
    forall k | 0 <= k < |pat| ensures CharMatches(pat[k], s[i + k]) {
      assert s[i + k] == s[i..i + |pat|][k];
    }
    assert MatchesAt(s, pat, i);
  }

  /** Without `.`, the pattern is a plain substring test. */
  lemma LiteralSearch(s: string, pat: string)
    requires '.' !in pat
    ensures Search(s, pat) <==> Contains(s, pat)
  {
    if Search(s, pat) {
      var i :| 0 <= i <= |s| && MatchesAt(s, pat, i);
      assert s[i..i + |pat|] == pat;
      assert OccursAt(s, pat, i);
    }
    if Contains(s, pat) {
      ContainsSearch(s, pat);
    }
  }

  lemma MatchInPrefix(s: string, t: string, pat: string, i: int)
    requires MatchesAt(s, pat, i)
    ensures MatchesAt(s + t, pat, i)
  {
    forall k | 0 <= k < |pat| ensures CharMatches(pat[k], (s + t)[i + k]) {
      assert (s + t)[i + k] == s[i + k];
    }
  }

  lemma MatchInSuffix(s: string, t: string, pat: string, i: int)
    requires MatchesAt(t, pat, i)
    ensures MatchesAt(s + t, pat, |s| + i)
  {
    forall k | 0 <= k < |pat| ensures CharMatches(pat[k], (s + t)[|s| + i + k]) {
      assert (s + t)[|s| + i + k] == t[i + k];
    }
  }

  lemma MatchFromPrefix(s: string, t: string, pat: string, i: int)
    requires MatchesAt(s + t, pat, i) && i + |pat| <= |s|
    ensures MatchesAt(s, pat, i)
  {
    forall k | 0 <= k < |pat| ensures CharMatches(pat[k], s[i + k]) {
      assert (s + t)[i + k] == s[i + k];
    }
  }

  lemma MatchFromSuffix(s: string, t: string, pat: string, i: int)
    requires MatchesAt(s + t, pat, i) && i >= |s|
    ensures MatchesAt(t, pat, i - |s|)
  {
    forall k | 0 <= k < |pat| ensures CharMatches(pat[k], t[i - |s| + k]) {
      assert (s + t)[i + k] == t[i - |s| + k];
    }
  }

  /** A match never spans a newline unless the pattern itself holds one. */
  lemma NewlineStopsMatch(s: string, pat: string, i: int, p: int)
    requires MatchesAt(s, pat, i) && i <= p < i + |pat| && s[p] == '\n'
    ensures '\n' in pat
  {
    assert CharMatches(pat[p - i], s[i + (p - i)]);
  }

  /** A match in lines joined by newlines is a match inside one of the lines, and back. */
  lemma {:induction false} SearchJoin(lines: seq<string>, pat: string)
    requires |lines| >= 1
    requires '\n' !in pat
    requires forall k :: 0 <= k < |lines| ==> '\n' !in lines[k]
    ensures Search(Join(lines, "\n"), pat) <==> exists k :: 0 <= k < |lines| && Search(lines[k], pat)
  {
    if |lines| == 1 {
      assert Join(lines, "\n") == lines[0];
      if Search(lines[0], pat) {
        assert 0 < |lines| && Search(lines[0], pat);
      }
    } else {
      var a := lines[0];
      var rest := lines[1..];
      var tail := Join(rest, "\n");
      var j := Join(lines, "\n");
      assert j == a + ("\n" + tail);
      SearchJoin(rest, pat);
      if Search(j, pat) {
        var i :| 0 <= i <= |j| && MatchesAt(j, pat, i);
        if i + |pat| <= |a| {
          MatchFromPrefix(a, "\n" + tail, pat, i);
          assert Search(lines[0], pat);
        } else if i <= |a| {
          NewlineStopsMatch(j, pat, i, |a|);
          assert false;
        } else {
          MatchFromSuffix(a, "\n" + tail, pat, i);
          MatchFromSuffix("\n", tail, pat, i - |a|);
          assert Search(tail, pat);
          var k :| 0 <= k < |rest| && Search(rest[k], pat);
          assert lines[k + 1] == rest[k];
        }
      }
      if exists k :: 0 <= k < |lines| && Search(lines[k], pat) {
        var k :| 0 <= k < |lines| && Search(lines[k], pat);
        if k == 0 {
          var i :| 0 <= i <= |a| && MatchesAt(a, pat, i);
          MatchInPrefix(a, "\n" + tail, pat, i);
        } else {
          assert rest[k - 1] == lines[k];
          var i :| 0 <= i <= |tail| && MatchesAt(tail, pat, i);
          MatchInSuffix("\n", tail, pat, i);
          MatchInSuffix(a, "\n" + tail, pat, 1 + i);
        }
      }
    }
  }

  /** `re.search` of a newline-free pattern succeeds iff it succeeds on some line. */
  lemma SearchByLines(s: string, pat: string)
    requires '\n' !in pat
    ensures Search(s, pat) <==> exists k :: 0 <= k < |Lines(s)| && Search(Lines(s)[k], pat)
  {
    JoinSplit(s, '\n');
    SplitPiecesLackSeparator(s, '\n');
    SearchJoin(Lines(s), pat);
  }

  // ---------------------------------------------------------------------------
  // Line-anchored substitutions
  // ---------------------------------------------------------------------------

  /** Each line, or `replacement` in its place when `select` picks it. */
  function ReplaceEach(lines: seq<string>, select: string -> bool, replacement: string): (r: seq<string>)
    ensures |r| == |lines|
    ensures forall k :: 0 <= k < |lines| ==> r[k] == (if select(lines[k]) then replacement else lines[k])
  {
    if |lines| == 0 then [] else [if select(lines[0]) then replacement else lines[0]] + ReplaceEach(lines[1..], select, replacement)
  }

  /**
   * `re.sub(p, replacement, text, flags=re.MULTILINE)` for a pattern `p` that matches
   * from the start of a line to its end exactly on the lines `select` picks:
   * those lines become `replacement` and their newlines are kept.
   */
  function ReplaceLines(text: string, select: string -> bool, replacement: string): string {
    Join(ReplaceEach(Lines(text), select, replacement), "\n")
  }

  /** The same substitution with an empty replacement. */
  function BlankLines(text: string, blank: string -> bool): string {
    ReplaceLines(text, blank, "")
  }

  /** With a one-line replacement, the lines after the substitution are the lines before it, each replaced or kept. */
  lemma LinesOfReplaceLines(text: string, select: string -> bool, replacement: string)
    requires '\n' !in replacement
    ensures Lines(ReplaceLines(text, select, replacement)) == ReplaceEach(Lines(text), select, replacement)
  {
    var lines := Lines(text);
    SplitPiecesLackSeparator(text, '\n');
    var r := ReplaceEach(lines, select, replacement);
    assert forall k :: 0 <= k < |r| ==> '\n' !in r[k];
    SplitJoin(r, '\n');
  }

  lemma LinesOfBlankLines(text: string, blank: string -> bool)
    ensures Lines(BlankLines(text, blank)) == ReplaceEach(Lines(text), blank, "")
  {
    LinesOfReplaceLines(text, blank, "");
  }

  /** The substitution treats the first line and then the rest of the text. */
  lemma ReplaceFirstLine(line: string, rest: string, select: string -> bool, replacement: string)
    requires '\n' !in line
    ensures ReplaceLines(line + "\n" + rest, select, replacement)
      == (if select(line) then replacement else line) + "\n" + ReplaceLines(rest, select, replacement)
  {
    SplitAroundSeparator(line, rest, '\n');
    var tail := Lines(rest);
    var first := if select(line) then replacement else line;
    var replacedTail := ReplaceEach(tail, select, replacement);
    assert ReplaceEach([line] + tail, select, replacement) == [first] + replacedTail;
    assert ([first] + replacedTail)[1..] == replacedTail;
  }

  /** Selecting no line leaves the text unchanged. */
  lemma ReplaceNothing(text: string, select: string -> bool, replacement: string)
    requires forall k :: 0 <= k < |Lines(text)| ==> !select(Lines(text)[k])
    ensures ReplaceLines(text, select, replacement) == text
  {
    assert ReplaceEach(Lines(text), select, replacement) == Lines(text);
    JoinSplit(text, '\n');
  }

  // ---------------------------------------------------------------------------
  // The extra-feed pattern of the opkg configuration
  // ---------------------------------------------------------------------------

  /** The line holds a match of `src.*\/extra\/.*`: "src" and, later on, "/extra/". */
  predicate HasSrcExtra(line: string) {
    exists i, j :: 0 <= i <= |line| && 0 <= j <= |line| && i + 3 <= j
      && OccursAt(line, "src", i) && OccursAt(line, "/extra/", j)
  }

  /** `bool(re.search("src.*\/extra\/.*", text))`: some line holds a match. */
  predicate SearchSrcExtra(text: string) {
    exists k :: 0 <= k < |Lines(text)| && HasSrcExtra(Lines(text)[k])
  }

  /** The line is matched, from its start, by `^src.*\/extra\/.*` and is emptied by the substitution. */
  predicate StartsSrcExtra(line: string) {
    StartsWith(line, "src") && exists j :: 3 <= j <= |line| && OccursAt(line, "/extra/", j)
  }

  lemma StartsSrcExtraHas(line: string)
    requires StartsSrcExtra(line)
    ensures HasSrcExtra(line)
  {
    var j :| 3 <= j <= |line| && OccursAt(line, "/extra/", j);
    assert OccursAt(line, "src", 0);
  }

  /**
   * After `re.sub("^src.*\/extra\/.*", "", text, flags=re.MULTILINE)` the
   * search still succeeds exactly when some line holds "src" ... "/extra/"
   * without starting with "src".
   */
  lemma SrcExtraAfterBlank(text: string)
    ensures SearchSrcExtra(BlankLines(text, StartsSrcExtra))
        <==> exists k :: 0 <= k < |Lines(text)| && HasSrcExtra(Lines(text)[k]) && !StartsSrcExtra(Lines(text)[k])
  {
    var lines := Lines(text);
    LinesOfBlankLines(text, StartsSrcExtra);
    var after := Lines(BlankLines(text, StartsSrcExtra));
    assert !HasSrcExtra("");
    if SearchSrcExtra(BlankLines(text, StartsSrcExtra)) {
      var k :| 0 <= k < |after| && HasSrcExtra(after[k]);
      assert after[k] == lines[k] && !StartsSrcExtra(lines[k]);
    }
    if exists k :: 0 <= k < |lines| && HasSrcExtra(lines[k]) && !StartsSrcExtra(lines[k]) {
      var k :| 0 <= k < |lines| && HasSrcExtra(lines[k]) && !StartsSrcExtra(lines[k]);
      assert after[k] == lines[k];
    }
  }
}
