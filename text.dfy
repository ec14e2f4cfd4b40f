/**
 * The Python string operations the tool relies on (`str.split`, `str.join`,
 * `str.splitlines`, `str.strip`, `str.upper`, `str.lower`, `in`), written out
 * over `seq<char>`.
 */
module Text {

  // ---------------------------------------------------------------------------
  // Substrings and prefixes
  // ---------------------------------------------------------------------------

  /** `sub` occurs in `s` starting at index `i`. */
  predicate OccursAt(s: string, sub: string, i: int) {
    0 <= i && i + |sub| <= |s| && s[i..i + |sub|] == sub
  }

  /** Python `sub in s`. */
  predicate Contains(s: string, sub: string) {
    exists i :: 0 <= i <= |s| && OccursAt(s, sub, i)
  }

  /** Python `s.startswith(p)`. */
  predicate StartsWith(s: string, p: string) {
    |p| <= |s| && s[..|p|] == p
  }

  /** Python `s.endswith(p)`. */
  predicate EndsWith(s: string, p: string) {
    |p| <= |s| && s[|s| - |p|..] == p
  }

  /** The first occurrence of `sub` at or after `i`, or -1. */
  function FindFrom(s: string, sub: string, i: nat): (r: int)
    requires i <= |s|
    ensures r == -1 || (i <= r <= |s| && OccursAt(s, sub, r))
    ensures r == -1 ==> forall j :: i <= j <= |s| ==> !OccursAt(s, sub, j)
    ensures r >= 0 ==> forall j :: i <= j < r ==> !OccursAt(s, sub, j)
    decreases |s| - i
  {
    if OccursAt(s, sub, i) then i else if i == |s| then -1 else FindFrom(s, sub, i + 1)
  }

  /** Python `s.find(sub)`: the first index at which `sub` occurs, -1 when it does not. */
  function Find(s: string, sub: string): (r: int)
    ensures r >= 0 <==> Contains(s, sub)
    ensures r >= 0 ==> OccursAt(s, sub, r) && forall j :: 0 <= j < r ==> !OccursAt(s, sub, j)
  {
    FindFrom(s, sub, 0)
  }

  lemma ContainsMiddle(a: string, m: string, b: string)
    ensures Contains(a + m + b, m)
  {
    assert (a + m + b)[|a|..|a| + |m|] == m;
    assert OccursAt(a + m + b, m, |a|);
  }

  lemma ContainsAppend(s: string, t: string, m: string)
    requires Contains(s, m)
    ensures Contains(s + t, m) && Contains(t + s, m)
  {
    var i :| 0 <= i <= |s| && OccursAt(s, m, i);
    assert (s + t)[i..i + |m|] == s[i..i + |m|];
    assert OccursAt(s + t, m, i);
    assert (t + s)[|t| + i..|t| + i + |m|] == s[i..i + |m|];
    assert OccursAt(t + s, m, |t| + i);
  }

  /** Index of the first `c` in `s`, or `|s|` when there is none (`s.find(c)` with -1 read as `|s|`). */
  function IndexOf(s: string, c: char): (i: nat)
    ensures i <= |s|
    ensures c !in s[..i]
    ensures i < |s| ==> s[i] == c
    ensures i == |s| <==> c !in s
  {
    if |s| == 0 then 0
    else if s[0] == c then 0
    else
      var i := 1 + IndexOf(s[1..], c);
      assert s[..i] == [s[0]] + s[1..][..i - 1];
      i
  }

  lemma IndexOfAt(s: string, c: char, i: nat)
    requires i < |s| && s[i] == c && c !in s[..i]
    ensures IndexOf(s, c) == i
  {
  }

  // ---------------------------------------------------------------------------
  // split / join on a one-character separator
  // ---------------------------------------------------------------------------

  /** Python `sep.join(parts)`. */
  function Join(parts: seq<string>, sep: string): string
  {
    if |parts| == 0 then ""
    else if |parts| == 1 then parts[0]
    else parts[0] + sep + Join(parts[1..], sep)
  }

  /** Python `s.split(c)` for a one-character separator `c`. */
  function Split(s: string, c: char): (r: seq<string>)
    ensures |r| >= 1
  {
    if |s| == 0 then [""]
    else
      var rest := Split(s[1..], c);
      if s[0] == c then [""] + rest else [[s[0]] + rest[0]] + rest[1..]
  }

  /** Python `s.split("\n")`: the lines of `s` without their terminators. */
  function Lines(s: string): seq<string> {
    Split(s, '\n')
  }

  lemma {:induction false} SplitPiecesLackSeparator(s: string, c: char)
    ensures forall k :: 0 <= k < |Split(s, c)| ==> c !in Split(s, c)[k]
  {
    if |s| > 0 {
      SplitPiecesLackSeparator(s[1..], c);
    }
  }

  /** Joining the pieces of a split with the separator gives back the string. */
  lemma {:induction false} JoinSplit(s: string, c: char)
    ensures Join(Split(s, c), [c]) == s
  {
    if |s| > 0 {
      var rest := Split(s[1..], c);
      JoinSplit(s[1..], c);
      if s[0] == c {
        assert Split(s, c) == [""] + rest;
        assert Join([""] + rest, [c]) == "" + [c] + Join(rest, [c]) by {
          assert ([""] + rest)[1..] == rest;
        }
        assert s == [s[0]] + s[1..];
      } else {
        var first := [s[0]] + rest[0];
        assert Split(s, c) == [first] + rest[1..];
        if |rest| == 1 {
          assert Join([first] + rest[1..], [c]) == first;
          assert Join(rest, [c]) == rest[0];
        } else {
          assert ([first] + rest[1..])[1..] == rest[1..];
          assert Join([first] + rest[1..], [c]) == first + [c] + Join(rest[1..], [c]);
          assert Join(rest, [c]) == rest[0] + [c] + Join(rest[1..], [c]);
        }
        assert s == [s[0]] + s[1..];
      }
    }
  }

  /** Splitting a join of separator-free pieces gives back the pieces. */
  lemma {:induction false} SplitJoin(parts: seq<string>, c: char)
    requires |parts| >= 1
    requires forall k :: 0 <= k < |parts| ==> c !in parts[k]
    ensures Split(Join(parts, [c]), c) == parts
  {
    if |parts| == 1 {
      NoSeparatorSplit(parts[0], c);
    } else {
      SplitJoin(parts[1..], c);
      SplitAroundSeparator(parts[0], Join(parts[1..], [c]), c);
      assert [parts[0]] + parts[1..] == parts;
    }
  }

  lemma {:induction false} NoSeparatorSplit(s: string, c: char)
    requires c !in s
    ensures Split(s, c) == [s]
  {
    if |s| > 0 {
      NoSeparatorSplit(s[1..], c);
      assert [s[0]] + s[1..] == s;
    }
  }

  lemma {:induction false} SplitAroundSeparator(a: string, b: string, c: char)
    requires c !in a
    ensures Split(a + [c] + b, c) == [a] + Split(b, c)
  {
    if |a| == 0 {
      assert a + [c] + b == [c] + b;
      assert ([c] + b)[1..] == b;
    } else {
      assert (a + [c] + b)[1..] == a[1..] + [c] + b;
      SplitAroundSeparator(a[1..], b, c);
      assert [a[0]] + a[1..] == a;
    }
  }

  /** The lines of `a + [c] + b` when `a` has no separator: the first piece is `a`. */
  /** Where a piece of `Split(s, c)` lies in `s`: between two separators, or an end of `s`. */
  lemma {:induction false} SplitPieceAt(s: string, c: char, k: nat) returns (p: nat)
    requires k < |Split(s, c)|
    ensures p + |Split(s, c)[k]| <= |s| && s[p..p + |Split(s, c)[k]|] == Split(s, c)[k]
    ensures p == 0 || s[p - 1] == c
    ensures p + |Split(s, c)[k]| == |s| || s[p + |Split(s, c)[k]|] == c
    decreases |s|
  {
    if c !in s {
      NoSeparatorSplit(s, c);
      p := 0;
      assert s[0..|s|] == s;
    } else {
      var idx := IndexOf(s, c);
      var b := s[idx + 1..];
      SplitAtFirst(s, c, idx);
      if k == 0 {
        p := 0;
      } else {
        var q := SplitPieceAt(b, c, k - 1);
        ShiftedStretch(s, c, idx, q, |Split(b, c)[k - 1]|);
        p := idx + 1 + q;
      }
    }
  }

  /** Splitting at the first separator: the text before it, then the pieces of the rest. */
  lemma SplitAtFirst(s: string, c: char, idx: nat)
    requires idx < |s| && s[idx] == c && c !in s[..idx]
    ensures Split(s, c) == [s[..idx]] + Split(s[idx + 1..], c)
  {
    assert s == s[..idx] + [c] + s[idx + 1..];
    SplitAroundSeparator(s[..idx], s[idx + 1..], c);
  }

  /** A stretch of the text after a separator at `idx`, bounded by separators or ends, is one of `s` too. */
  lemma ShiftedStretch(s: string, c: char, idx: nat, q: nat, n: nat)
    requires idx < |s| && s[idx] == c
    requires q + n <= |s[idx + 1..]|
    requires q == 0 || s[idx + 1..][q - 1] == c
    requires q + n == |s[idx + 1..]| || s[idx + 1..][q + n] == c
    ensures idx + 1 + q + n <= |s| && s[idx + 1 + q..idx + 1 + q + n] == s[idx + 1..][q..q + n]
    ensures s[idx + q] == c
    ensures idx + 1 + q + n == |s| || s[idx + 1 + q + n] == c
  {
  }

  /** A stretch of `s` between two separators (or an end), holding none, is a piece of `Split(s, c)`. */
  lemma {:induction false} PieceInSplit(s: string, c: char, p: nat, q: nat) returns (k: nat)
    requires p <= q <= |s|
    requires p == 0 || s[p - 1] == c
    requires q == |s| || s[q] == c
    requires c !in s[p..q]
    ensures k < |Split(s, c)| && Split(s, c)[k] == s[p..q]
    decreases |s|
  {
    if c !in s {
      NoSeparatorSplit(s, c);
      SoleStretch(s, c, p, q);
      k := 0;
    } else {
      var idx := IndexOf(s, c);
      SplitAtFirst(s, c, idx);
      if p == 0 {
        FirstStretch(s, c, idx, q);
        k := 0;
      } else {
        UnshiftedStretch(s, c, idx, p, q);
        var k' := PieceInSplit(s[idx + 1..], c, p - idx - 1, q - idx - 1);
        k := k' + 1;
      }
    }
  }

  lemma SoleStretch(s: string, c: char, p: nat, q: nat)
    requires c !in s && p <= q <= |s|
    requires p == 0 || s[p - 1] == c
    requires q == |s| || s[q] == c
    ensures s[p..q] == s
  {
    assert s[0..|s|] == s;
  }

  lemma FirstStretch(s: string, c: char, idx: nat, q: nat)
    requires idx < |s| && s[idx] == c && c !in s[..idx]
    requires q <= |s| && (q == |s| || s[q] == c) && c !in s[0..q]
    ensures s[0..q] == s[..idx]
  {
  }

  lemma UnshiftedStretch(s: string, c: char, idx: nat, p: nat, q: nat)
    requires idx < |s| && s[idx] == c && c !in s[..idx]
    requires 0 < p <= q <= |s| && s[p - 1] == c
    requires q == |s| || s[q] == c
    ensures idx < p
    ensures var b := s[idx + 1..]; var p', q' := p - idx - 1, q - idx - 1;
      0 <= p' <= q' <= |b| && (p' == 0 || b[p' - 1] == c) && (q' == |b| || b[q'] == c) && b[p'..q'] == s[p..q]
  {
  }

  lemma SplitAppendLine(a: string, b: string, c: char)
    requires c !in a
    ensures Split(a + [c] + b, c)[0] == a
  {
    SplitAroundSeparator(a, b, c);
  }

  // ---------------------------------------------------------------------------
  // Text-mode reads
  // ---------------------------------------------------------------------------

  /**
   * What a file opened in text mode reads as (universal newlines): each
   * "\r\n" and each remaining "\r" becomes "\n"; nothing else changes.
   */
  function Universal(s: string): (r: string)
    ensures '\r' !in r
    ensures '\r' !in s ==> r == s
    ensures |r| <= |s|
    decreases |s|
  {
    if |s| == 0 then ""
    else if s[0] == '\r' then "\n" + Universal(if |s| > 1 && s[1] == '\n' then s[2..] else s[1..])
    else [s[0]] + Universal(s[1..])
  }

  /** Text without a carriage return in front is read unchanged. */
  lemma {:induction false} UniversalPrefix(a: string, b: string)
    requires '\r' !in a
    ensures Universal(a + b) == a + Universal(b)
  {
    if |a| > 0 {
      assert (a + b)[0] == a[0] && (a + b)[1..] == a[1..] + b;
      UniversalPrefix(a[1..], b);
      assert [a[0]] + a[1..] == a;
    } else {
      assert a + b == b;
    }
  }

  /**
   * A line ended by "\r" or "\r\n" is read as a line of its own: the lines of
   * the text-mode read are that line followed by the lines of the rest.
   */
  lemma CarriageReturnEndsLine(line: string, rest: string)
    requires '\r' !in line && '\n' !in line
    ensures Lines(Universal(line + "\r" + rest))
      == [line] + Lines(Universal(if |rest| > 0 && rest[0] == '\n' then rest[1..] else rest))
  {
    var s := "\r" + rest;
    assert line + "\r" + rest == line + s;
    UniversalPrefix(line, s);
    var after := if |rest| > 0 && rest[0] == '\n' then rest[1..] else rest;
    assert s[0] == '\r';
    if |rest| > 0 && rest[0] == '\n' {
      assert s[2..] == after;
    } else {
      assert s[1..] == after;
    }
    assert Universal(s) == "\n" + Universal(after);
    assert line + Universal(s) == line + ['\n'] + Universal(after);
    SplitAroundSeparator(line, Universal(after), '\n');
  }

  // ---------------------------------------------------------------------------
  // splitlines
  // ---------------------------------------------------------------------------

  /** The characters Python's `str.splitlines()` breaks lines at. */
  predicate IsLineBreak(ch: char) {
    ch == '\n' || ch == '\r' || ch == '\U{0B}' || ch == '\U{0C}' || ch == '\U{1C}' || ch == '\U{1D}'
    || ch == '\U{1E}' || ch == '\U{85}' || ch == '\U{2028}' || ch == '\U{2029}'
  }

  /** Index of the first line break of `s`, or `|s|` when there is none. */
  function FirstBreak(s: string): (i: nat)
    ensures i <= |s|
    ensures forall k :: 0 <= k < i ==> !IsLineBreak(s[k])
    ensures i < |s| ==> IsLineBreak(s[i])
  {
    if |s| == 0 then 0
    else if IsLineBreak(s[0]) then 0
    else 1 + FirstBreak(s[1..])
  }

  /** Python `s.splitlines()`: "\r\n" is one break, a final break opens no empty line. */
  function SplitLines(s: string): (r: seq<string>)
    ensures forall k, j :: 0 <= k < |r| && 0 <= j < |r[k]| ==> !IsLineBreak(r[k][j])
    decreases |s|
  {
    if |s| == 0 then []
    else
      var i := FirstBreak(s);
      if i == |s| then [s]
      else
        var skip := if s[i] == '\r' && i + 1 < |s| && s[i + 1] == '\n' then 2 else 1;
        [s[..i]] + SplitLines(s[i + skip..])
  }

  /** The first line of `line + "\n" + rest` is `line` when `line` holds no line break. */
  lemma SplitLinesFirst(line: string, rest: string)
    requires forall k :: 0 <= k < |line| ==> !IsLineBreak(line[k])
    ensures |SplitLines(line + "\n" + rest)| >= 1
    ensures SplitLines(line + "\n" + rest)[0] == line
  {
    var s := line + "\n" + rest;
    var i := FirstBreak(s);
    assert s[|line|] == '\n';
    assert i == |line|;
    assert s[..i] == line;
  }

  // ---------------------------------------------------------------------------
  // strip
  // ---------------------------------------------------------------------------

  /**
   * `str.isspace()`: the ASCII controls 0x09-0x0D and 0x1C-0x1F, the space,
   * NEL, NBSP, and the Unicode spaces and separators U+1680, U+2000-U+200A,
   * U+2028, U+2029, U+202F, U+205F and U+3000.
   */
  predicate IsSpace(ch: char) {
    ch == ' ' || ('\t' <= ch <= '\r') || ('\U{1C}' <= ch <= '\U{1F}') || ch == '\U{85}' || ch == '\U{A0}'
    || ch == '\U{1680}' || ('\U{2000}' <= ch <= '\U{200A}') || ch == '\U{2028}' || ch == '\U{2029}'
    || ch == '\U{202F}' || ch == '\U{205F}' || ch == '\U{3000}'
  }

  predicate AllSpace(s: string) {
    forall k :: 0 <= k < |s| ==> IsSpace(s[k])
  }

  /** The index of the first character at or after `i` that is not whitespace (or `|s|`). */
  function LeadEnd(s: string, i: nat): (j: nat)
    requires i <= |s|
    ensures i <= j <= |s|
    ensures forall k :: i <= k < j ==> IsSpace(s[k])
    ensures j < |s| ==> !IsSpace(s[j])
    decreases |s| - i
  {
    if i < |s| && IsSpace(s[i]) then LeadEnd(s, i + 1) else i
  }

  /** The index just after the last character before `j` that is not whitespace (or 0). */
  function TrailStart(s: string, j: nat): (i: nat)
    requires j <= |s|
    ensures i <= j
    ensures forall k :: i <= k < j ==> IsSpace(s[k])
    ensures i > 0 ==> !IsSpace(s[i - 1])
  {
    if j > 0 && IsSpace(s[j - 1]) then TrailStart(s, j - 1) else j
  }

  /** Python `s.lstrip()`. */
  function LStrip(s: string): (r: string)
    ensures |r| <= |s| && r == s[|s| - |r|..]
    ensures AllSpace(s[..|s| - |r|])
    ensures |r| > 0 ==> !IsSpace(r[0])
  {
    s[LeadEnd(s, 0)..]
  }

  /** Python `s.rstrip()`. */
  function RStrip(s: string): (r: string)
    ensures |r| <= |s| && r == s[..|r|]
    ensures AllSpace(s[|r|..])
    ensures |r| > 0 ==> !IsSpace(r[|r| - 1])
  {
    s[..TrailStart(s, |s|)]
  }

  /** Python `s.strip()`: `s` is `r` with only whitespace around it. */
  function Strip(s: string): (r: string)
    ensures |s| - |LStrip(s)| + |r| <= |s|
    ensures s[|s| - |LStrip(s)|..][..|r|] == r
    ensures AllSpace(s[..|s| - |LStrip(s)|]) && AllSpace(s[|s| - |LStrip(s)| + |r|..])
    ensures |r| > 0 ==> !IsSpace(r[0]) && !IsSpace(r[|r| - 1])
  {
    var l := LStrip(s);
    var r := RStrip(l);
    StripCompose(s, l, r);
    r
  }

  /** Whitespace stripped from the right of what was left after stripping from the left. */
  lemma StripCompose(s: string, l: string, r: string)
    requires |l| <= |s| && l == s[|s| - |l|..] && AllSpace(s[..|s| - |l|])
    requires |l| > 0 ==> !IsSpace(l[0])
    requires |r| <= |l| && r == l[..|r|] && AllSpace(l[|r|..])
    ensures s[|s| - |l|..][..|r|] == r
    ensures AllSpace(s[|s| - |l| + |r|..])
    ensures |r| > 0 ==> !IsSpace(r[0])
  {
    assert s[|s| - |l| + |r|..] == l[|r|..];
  }

  lemma LStripSpaces(pre: string, t: string)
    requires AllSpace(pre)
    requires |t| > 0 ==> !IsSpace(t[0])
    ensures LStrip(pre + t) == t
  {
    var s := pre + t;
    var j := LeadEnd(s, 0);
    assert forall k :: 0 <= k < |pre| ==> s[k] == pre[k];
    assert |pre| < |s| ==> s[|pre|] == t[0];
    assert j == |pre|;
    assert s[j..] == t;
  }

  lemma RStripSpaces(t: string, post: string)
    requires AllSpace(post)
    requires |t| > 0 ==> !IsSpace(t[|t| - 1])
    ensures RStrip(t + post) == t
  {
    var s := t + post;
    var i := TrailStart(s, |s|);
    assert forall k :: |t| <= k < |s| ==> s[k] == post[k - |t|];
    assert |t| > 0 ==> s[|t| - 1] == t[|t| - 1];
    assert i == |t|;
    assert s[..i] == t;
  }

  /** Stripping text that has only whitespace around it gives back the text. */
  lemma StripAround(pre: string, t: string, post: string)
    requires AllSpace(pre) && AllSpace(post)
    requires |t| > 0 ==> !IsSpace(t[0]) && !IsSpace(t[|t| - 1])
    ensures Strip(pre + t + post) == t
  {
    if |t| == 0 {
      assert pre + t + post == pre + post + "";
      assert AllSpace(pre + post);
      LStripSpaces(pre + post, "");
    } else {
      assert pre + t + post == pre + (t + post);
      LStripSpaces(pre, t + post);
      RStripSpaces(t, post);
    }
  }

  /** Text with a character that is not whitespace does not strip to nothing. */
  lemma StripNotBlank(s: string, i: int)
    requires 0 <= i < |s| && !IsSpace(s[i])
    ensures Strip(s) != ""
  {
    var l := |s| - |LStrip(s)|;
    var r := Strip(s);
    assert forall j :: 0 <= j < l ==> s[..l][j] == s[j];
    assert forall j :: l + |r| <= j < |s| ==> s[l + |r|..][j - l - |r|] == s[j];
  }

  /** Text with no whitespace at either end is its own strip. */
  lemma StripSelf(s: string)
    requires |s| > 0 && !IsSpace(s[0]) && !IsSpace(s[|s| - 1])
    ensures Strip(s) == s
  {
    assert "" + s + "" == s;
    StripAround("", s, "");
  }

  /**
   * The whitespace `int()` skips around a number: the ASCII controls
   * 0x09-0x0D, the space, and every non-ASCII character `str.isspace()`
   * accepts (0x1C-0x1F are not skipped).
   */
  predicate IntSpace(ch: char) {
    IsSpace(ch) && !('\U{1C}' <= ch <= '\U{1F}')
  }

  /** `s` without the whitespace `int()` skips at either end. */
  function TrimInt(s: string): (r: string)
    ensures |r| <= |s|
    ensures |r| > 0 ==> !IntSpace(r[0]) && !IntSpace(r[|r| - 1])
    decreases |s|
  {
    if |s| > 0 && IntSpace(s[0]) then TrimInt(s[1..])
    else if |s| > 0 && IntSpace(s[|s| - 1]) then TrimInt(s[..|s| - 1])
    else s
  }

  /** Trimming whitespace from around a text that has none at its ends gives that text. */
  lemma {:induction false} TrimPadded(a: string, t: string, b: string)
    requires forall k :: 0 <= k < |a| ==> IntSpace(a[k])
    requires forall k :: 0 <= k < |b| ==> IntSpace(b[k])
    requires |t| > 0 && !IntSpace(t[0]) && !IntSpace(t[|t| - 1])
    ensures TrimInt(a + t + b) == t
    decreases |a| + |b|
  {
    var s := a + t + b;
    if |a| > 0 {
      assert s[0] == a[0];
      assert s[1..] == a[1..] + t + b;
      TrimPadded(a[1..], t, b);
    } else if |b| > 0 {
      assert s == t + b;
      assert s[0] == t[0] && s[|s| - 1] == b[|b| - 1];
      assert s[..|s| - 1] == a + t + b[..|b| - 1];
      TrimPadded(a, t, b[..|b| - 1]);
    } else {
      assert s == t;
    }
  }

  /** Text made only of `str.isspace()` characters trims to such text, whichever of them `int()` skips. */
  lemma {:induction false} TrimSpaces(s: string)
    requires AllSpace(s)
    ensures AllSpace(TrimInt(s))
    decreases |s|
  {
    if |s| > 0 && IntSpace(s[0]) {
      assert AllSpace(s[1..]) by {
        forall k | 0 <= k < |s| - 1 ensures IsSpace(s[1..][k]) {
          assert s[1..][k] == s[k + 1];
        }
      }
      TrimSpaces(s[1..]);
    } else if |s| > 0 && IntSpace(s[|s| - 1]) {
      var u := s[..|s| - 1];
      assert AllSpace(u) by {
        forall k | 0 <= k < |u| ensures IsSpace(u[k]) {
          assert u[k] == s[k];
        }
      }
      TrimSpaces(u);
    }
  }

  // ---------------------------------------------------------------------------
  // Case mapping and number formatting
  // ---------------------------------------------------------------------------

  /** `str.upper()` on ASCII letters; every other character is kept. */
  function Upper(s: string): (r: string)
    ensures |r| == |s|
    ensures forall k :: 0 <= k < |s| ==> r[k] == (if 'a' <= s[k] <= 'z' then (s[k] as int - 32) as char else s[k])
  {
    if |s| == 0 then "" else [if 'a' <= s[0] <= 'z' then (s[0] as int - 32) as char else s[0]] + Upper(s[1..])
  }

  /** `str.lower()` on ASCII letters; every other character is kept. */
  function Lower(s: string): (r: string)
    ensures |r| == |s|
    ensures forall k :: 0 <= k < |s| ==> r[k] == (if 'A' <= s[k] <= 'Z' then (s[k] as int + 32) as char else s[k])
  {
    if |s| == 0 then "" else [if 'A' <= s[0] <= 'Z' then (s[0] as int + 32) as char else s[0]] + Lower(s[1..])
  }

  function DigitChar(d: nat): char
    requires d < 10
  {
    "0123456789"[d]
  }

  predicate IsDigit(ch: char) {
    '0' <= ch <= '9'
  }

  /** Python `str(n)` for a natural number. */
  function NatToString(n: nat): (r: string)
    ensures |r| >= 1
    ensures forall k :: 0 <= k < |r| ==> IsDigit(r[k])
  {
    if n < 10 then [DigitChar(n)] else NatToString(n / 10) + [DigitChar(n % 10)]
  }

  /** Python `str(i)` for an integer. */
  function IntToString(i: int): string {
    if i < 0 then "-" + NatToString(-i) else NatToString(i)
  }

  /** `n` in decimal, left-padded with zeros to `width` digits (strftime's `%m`, `%d`, ...). */
  function ZeroPad(n: nat, width: nat): (r: string)
    ensures |r| >= width
    ensures forall k :: 0 <= k < |r| ==> IsDigit(r[k])
  {
    var digits := NatToString(n);
    if |digits| >= width then digits else seq(width - |digits|, _ => '0') + digits
  }

  /** The value of a string of decimal digits. */
  function DecimalValue(s: string): nat
    requires forall k :: 0 <= k < |s| ==> IsDigit(s[k])
  {
    if |s| == 0 then 0
    else
      var last := s[|s| - 1];
      assert IsDigit(last);
      DecimalValue(s[..|s| - 1]) * 10 + (last as int - '0' as int)
  }

  lemma {:induction false} NatToStringValue(n: nat)
    ensures DecimalValue(NatToString(n)) == n
  {
    if n >= 10 {
      NatToStringValue(n / 10);
      var s := NatToString(n);
      assert s[..|s| - 1] == NatToString(n / 10);
    }
  }

  lemma ZeroPadValue(n: nat, width: nat)
    ensures DecimalValue(ZeroPad(n, width)) == n
  {
    var digits := NatToString(n);
    NatToStringValue(n);
    if |digits| < width {
      LeadingZerosValue(width - |digits|, digits);
    }
  }

  lemma {:induction false} LeadingZerosValue(z: nat, d: string)
    requires forall k :: 0 <= k < |d| ==> IsDigit(d[k])
    ensures DecimalValue(seq(z, _ => '0') + d) == DecimalValue(d)
    decreases |d|
  {
    var s := seq(z, _ => '0') + d;
    if |d| == 0 {
      assert s == seq(z, _ => '0');
      AllZerosValue(z);
    } else {
      assert s[..|s| - 1] == seq(z, _ => '0') + d[..|d| - 1];
      LeadingZerosValue(z, d[..|d| - 1]);
    }
  }

  lemma {:induction false} AllZerosValue(z: nat)
    ensures DecimalValue(seq(z, _ => '0')) == 0
  {
    if z > 0 {
      assert seq(z, _ => '0')[..z - 1] == seq(z - 1, _ => '0');
      AllZerosValue(z - 1);
    }
  }

  /** Two zero-padded numbers of the same width that are equal have the same value. */
  lemma ZeroPadInjective(a: nat, b: nat, width: nat)
    requires ZeroPad(a, width) == ZeroPad(b, width)
    ensures a == b
  {
    ZeroPadValue(a, width);
    ZeroPadValue(b, width);
  }
}
