/** The line-oriented SQL script splitter of `Cursor.executescript`
    (src/sqlite3_qt/dbapi2.py:286-332).

    The script is cut into lines with Python's `str.splitlines`; each line is stripped
    and cut at its first `--`; blank lines and lines beginning with `DROP` are dropped;
    the kept lines gather in a group that closes at a line ending in `;` or beginning
    with `COMMIT`, and each closed group is joined with single spaces and handed to the
    engine when the result is non-empty. The engine's `exec` is a parameter here: a
    predicate that says whether it accepts a statement after the statements this script
    has already executed.

    The source spells the prefix and suffix tests `startsWith` and `endsWith`, which
    Python's `str` does not have. `RunScript` takes the names of the two test methods:
    `ExecuteScript` runs it with `startswith` and `endswith`, the evident intent, and
    `ExecuteScriptAsWritten` with the names as the code spells them. */
module Script {
  import opened Wrappers
  import opened Values

  // ---------------------------------------------------------------------------
  // The Python string operations the splitter is built from
  // ---------------------------------------------------------------------------

  /** The characters at which `str.splitlines` breaks a line (`\r\n` counts once). */
  predicate IsLineBoundary(c: char) {
    c == '\n' || c == '\r' || c == '\U{0B}' || c == '\U{0C}' || c == '\U{1C}' || c == '\U{1D}'
    || c == '\U{1E}' || c == '\U{85}' || c == '\U{2028}' || c == '\U{2029}'
  }

  /** The characters `str.isspace` accepts, which `str.strip()` removes. */
  predicate IsSpace(c: char) {
    c == ' ' || c == '\t' || c == '\n' || c == '\r' || c == '\U{0B}' || c == '\U{0C}'
    || ('\U{1C}' <= c <= '\U{1F}') || c == '\U{85}' || c == '\U{A0}' || c == '\U{1680}'
    || ('\U{2000}' <= c <= '\U{200A}') || c == '\U{2028}' || c == '\U{2029}'
    || c == '\U{202F}' || c == '\U{205F}' || c == '\U{3000}'
  }

  predicate NoBoundary(s: string) {
    forall j | 0 <= j < |s| :: !IsLineBoundary(s[j])
  }

  /** `str.splitlines` continued from a partly read line `current`. */
  function SplitLinesFrom(s: string, current: string): seq<string>
    requires NoBoundary(current)
    decreases |s|
  {
    if s == [] then
      (if current == [] then [] else [current])
    else if s[0] == '\r' && |s| > 1 && s[1] == '\n' then
      [current] + SplitLinesFrom(s[2..], [])
    else if IsLineBoundary(s[0]) then
      [current] + SplitLinesFrom(s[1..], [])
    else
      SplitLinesFrom(s[1..], current + [s[0]])
  }

  /** Python's `s.splitlines()`. */
  function SplitLines(s: string): seq<string> {
    SplitLinesFrom(s, [])
  }

  lemma {:induction false} SplitLinesFromNoBoundary(s: string, current: string)
    requires NoBoundary(current)
    ensures forall i | 0 <= i < |SplitLinesFrom(s, current)| :: NoBoundary(SplitLinesFrom(s, current)[i])
    decreases |s|
  {
    if s == [] {
    } else if s[0] == '\r' && |s| > 1 && s[1] == '\n' {
      SplitLinesFromNoBoundary(s[2..], []);
    } else if IsLineBoundary(s[0]) {
      SplitLinesFromNoBoundary(s[1..], []);
    } else {
      assert NoBoundary(current + [s[0]]) by {
        assert forall j | 0 <= j < |current| :: (current + [s[0]])[j] == current[j];
      }
      SplitLinesFromNoBoundary(s[1..], current + [s[0]]);
    }
  }

  /** No line `SplitLines` yields holds a line boundary. */
  lemma SplitLinesNoBoundary(s: string)
    ensures forall i | 0 <= i < |SplitLines(s)| :: NoBoundary(SplitLines(s)[i])
  {
    SplitLinesFromNoBoundary(s, []);
  }

  /** Each line followed by a newline: the inverse of `SplitLines` on `\n`-only text. */
  function Terminated(lines: seq<string>): string {
    if lines == [] then [] else lines[0] + "\n" + Terminated(lines[1..])
  }

  /** The newline `SplitLines` drops when a text does not already end with one. */
  function MissingNewline(s: string): string {
    if s == [] || s[|s| - 1] == '\n' then [] else "\n"
  }

  lemma {:induction false} SplitLinesFromRoundTrip(s: string, current: string)
    requires NoBoundary(current)
    requires forall j | 0 <= j < |s| :: IsLineBoundary(s[j]) ==> s[j] == '\n'
    ensures Terminated(SplitLinesFrom(s, current)) == current + s + MissingNewline(current + s)
    decreases |s|
  {
    if s == [] {
      assert current + s == current;
      if current != [] {
        assert !IsLineBoundary(current[|current| - 1]);
        assert Terminated([current]) == current + "\n" + Terminated([]);
      }
    } else if IsLineBoundary(s[0]) {
      SplitLinesFromRoundTrip(s[1..], []);
      assert [] + s[1..] == s[1..];
      NewlineStep(s, current);
    } else {
      SplitLinesFromRoundTrip(s[1..], current + [s[0]]);
      assert current + [s[0]] + s[1..] == current + s;
    }
  }

  /** A `\n` ends the current line and the rest is split afresh. */
  lemma NewlineStep(s: string, current: string)
    requires NoBoundary(current) && s != [] && s[0] == '\n'
    ensures Terminated(SplitLinesFrom(s, current)) ==
      current + "\n" + Terminated(SplitLinesFrom(s[1..], []))
    ensures current + s + MissingNewline(current + s) ==
      current + "\n" + (s[1..] + MissingNewline(s[1..]))
  {
    var rest := SplitLinesFrom(s[1..], []);
    assert SplitLinesFrom(s, current) == [current] + rest;
    assert ([current] + rest)[1..] == rest;
    assert current + s == current + "\n" + s[1..];
    assert MissingNewline(s[1..]) == MissingNewline(current + s);
  }

  /** On a script whose only line boundary is `\n`, the lines `SplitLines` yields, each
      put back with its newline, rebuild the script: nothing is lost or reordered. */
  lemma SplitLinesRoundTrip(s: string)
    requires forall j | 0 <= j < |s| :: IsLineBoundary(s[j]) ==> s[j] == '\n'
    ensures Terminated(SplitLines(s)) == s + MissingNewline(s)
  {
    SplitLinesFromRoundTrip(s, []);
    assert [] + s == s;
  }

  /** `s.lstrip()`: the suffix of `s` left after its leading whitespace. */
  function StripLeft(s: string): string
    decreases |s|
  {
    if s != [] && IsSpace(s[0]) then StripLeft(s[1..]) else s
  }

  lemma {:induction false} StripLeftSpec(s: string)
    ensures var r := StripLeft(s);
      |r| <= |s| && r == s[|s| - |r|..] &&
      (forall j | 0 <= j < |s| - |r| :: IsSpace(s[j])) &&
      (r == [] || !IsSpace(r[0]))
    decreases |s|
  {
    if s != [] && IsSpace(s[0]) {
      StripLeftSpec(s[1..]);
      var r := StripLeft(s);
      forall j | 0 <= j < |s| - |r|
        ensures IsSpace(s[j])
      {
        if j > 0 {
          assert s[j] == s[1..][j - 1];
        }
      }
    }
  }

  /** `s.rstrip()`: the prefix of `s` left before its trailing whitespace. */
  function StripRight(s: string): string
    decreases |s|
  {
    if s != [] && IsSpace(s[|s| - 1]) then StripRight(s[..|s| - 1]) else s
  }

  lemma {:induction false} StripRightSpec(s: string)
    ensures var r := StripRight(s);
      |r| <= |s| && r == s[..|r|] &&
      (forall j | |r| <= j < |s| :: IsSpace(s[j])) &&
      (r == [] || !IsSpace(r[|r| - 1]))
    decreases |s|
  {
    if s != [] && IsSpace(s[|s| - 1]) {
      var t := s[..|s| - 1];
      StripRightSpec(t);
      var r := StripRight(s);
      assert r == StripRight(t);
      assert r == s[..|r|] by {
        assert t[..|r|] == s[..|r|];
      }
      forall j | |r| <= j < |s|
        ensures IsSpace(s[j])
      {
        if j < |s| - 1 {
          assert s[j] == t[j];
        }
      }
    }
  }

  /** `s.strip()`. */
  function Strip(s: string): string {
    StripRight(StripLeft(s))
  }

  /** `s` holds `--` somewhere. */
  predicate HasDoubleDash(s: string) {
    exists i, j | 0 <= i && j == i + 1 < |s| :: s[i] == '-' && s[j] == '-'
  }

  /** `s.split("--", 1)[0]`: the longest prefix of `s` without `--`, which is all of `s`
      or is followed in `s` by the first `--`. */
  function CutComment(s: string): string
    decreases |s|
  {
    if |s| < 2 then s
    else if s[0] == '-' && s[1] == '-' then []
    else [s[0]] + CutComment(s[1..])
  }

  lemma {:induction false} CutCommentSpec(s: string)
    ensures var r := CutComment(s);
      r <= s && !HasDoubleDash(r) &&
      (r != s ==> |r| + 2 <= |s| && s[|r|] == '-' && s[|r| + 1] == '-') &&
      (r != s ==> r == [] || r[|r| - 1] != '-')
    decreases |s|
  {
    if |s| >= 2 && !(s[0] == '-' && s[1] == '-') {
      var t := CutComment(s[1..]);
      CutCommentSpec(s[1..]);
      var r := [s[0]] + t;
      assert r == CutComment(s);
      assert r <= s by {
        assert s == [s[0]] + s[1..];
      }
      assert !HasDoubleDash(r) by {
        forall i, j | 0 <= i && j == i + 1 < |r|
          ensures !(r[i] == '-' && r[j] == '-')
        {
          if i == 0 {
            assert r[0] == s[0] && r[1] == s[1];
          } else {
            assert r[i] == t[i - 1] && r[j] == t[j - 1];
          }
        }
      }
      if r != s {
        assert t != s[1..];
      }
    }
  }

  /** The evident intent of `s.startsWith(prefix)`: Python's `s.startswith(prefix)`,
      compared character by character from the front. */
  predicate StartsWith(s: string, prefix: string)
    decreases |prefix|
  {
    prefix == [] || (s != [] && s[0] == prefix[0] && StartsWith(s[1..], prefix[1..]))
  }

  /** The evident intent of `s.endsWith(suffix)`: Python's `s.endswith(suffix)`,
      compared character by character from the back. */
  predicate EndsWith(s: string, suffix: string)
    decreases |suffix|
  {
    suffix == [] ||
    (s != [] && s[|s| - 1] == suffix[|suffix| - 1] && EndsWith(s[..|s| - 1], suffix[..|suffix| - 1]))
  }

  /** `StartsWith` is exactly the prefix test. */
  lemma {:induction false} StartsWithIsPrefix(s: string, prefix: string)
    ensures StartsWith(s, prefix) <==> prefix <= s
    decreases |prefix|
  {
    if prefix != [] && s != [] {
      StartsWithIsPrefix(s[1..], prefix[1..]);
      assert s == [s[0]] + s[1..] && prefix == [prefix[0]] + prefix[1..];
    }
  }

  /** `EndsWith` is exactly the suffix test. */
  lemma {:induction false} EndsWithIsSuffix(s: string, suffix: string)
    ensures EndsWith(s, suffix) <==> |suffix| <= |s| && s[|s| - |suffix|..] == suffix
    decreases |suffix|
  {
    if suffix != [] && s != [] {
      var s', t' := s[..|s| - 1], suffix[..|suffix| - 1];
      EndsWithIsSuffix(s', t');
      assert s == s' + [s[|s| - 1]] && suffix == t' + [suffix[|suffix| - 1]];
      if |suffix| <= |s| {
        assert s[|s| - |suffix|..] == s'[|s'| - |t'|..] + [s[|s| - 1]];
      }
    }
  }

  /** `" ".join(parts)`. */
  function Join(parts: seq<string>): (s: string)
    ensures parts != [] ==> parts[0] <= s
    decreases |parts|
  {
    if |parts| == 0 then []
    else if |parts| == 1 then parts[0]
    else parts[0] + " " + Join(parts[1..])
  }

  /** A string without `--` passes the comment cut whole. */
  lemma {:induction false} CutCommentWhole(s: string)
    requires !HasDoubleDash(s)
    ensures CutComment(s) == s
    decreases |s|
  {
    if |s| >= 2 {
      assert !(s[0] == '-' && s[1] == '-');
      assert !HasDoubleDash(s[1..]) by {
        forall i, j | 0 <= i && j == i + 1 < |s[1..]|
          ensures !(s[1..][i] == '-' && s[1..][j] == '-')
        {
          assert s[1..][i] == s[i + 1] && s[1..][j] == s[j + 1];
        }
      }
      CutCommentWhole(s[1..]);
      assert [s[0]] + s[1..] == s;
    }
  }

  // ---------------------------------------------------------------------------
  // One line of the script
  // ---------------------------------------------------------------------------

  /** The stripped line cut at its first `--` (not stripped again afterwards). */
  function Cleaned(line: string): string {
    CutComment(Strip(line))
  }

  /** The cleaned text of every line, in order. */
  function CleanAll(lines: seq<string>): (cs: seq<string>)
    ensures |cs| == |lines|
    decreases |lines|
  {
    if lines == [] then [] else [Cleaned(lines[0])] + CleanAll(lines[1..])
  }

  /** Line `k` of the cleaned script is line `k` of the script, cleaned. */
  lemma {:induction false} CleanAllAt(lines: seq<string>, k: nat)
    requires k < |lines|
    ensures CleanAll(lines)[k] == Cleaned(lines[k])
    decreases k
  {
    if k > 0 {
      CleanAllAt(lines[1..], k - 1);
    }
  }

  /** No cleaned line holds `--`. */
  lemma CleanAllNoDoubleDash(lines: seq<string>)
    ensures forall c | c in CleanAll(lines) :: !HasDoubleDash(c)
  {
    var cs := CleanAll(lines);
    forall c | c in cs
      ensures !HasDoubleDash(c)
    {
      var k :| 0 <= k < |cs| && cs[k] == c;
      CleanAllAt(lines, k);
      CutCommentSpec(Strip(lines[k]));
    }
  }

  /** A line whose stripped text starts with `--` cleans to nothing. */
  lemma CommentOnlyLineIsBlank(line: string)
    requires StartsWith(Strip(line), "--")
    ensures Cleaned(line) == []
  {
    var s := Strip(line);
    assert s[0] == '-' && s[1] == '-';
  }

  /** A cleaned line that joins the current group: not empty, not a comment, not `DROP`. */
  predicate Kept(c: string) {
    !(StartsWith(c, "--") || StartsWith(c, "DROP")) && |c| > 0
  }

  /** A cleaned line that closes the current group. */
  predicate Closes(c: string) {
    EndsWith(c, ";") || StartsWith(c, "COMMIT")
  }

  // ---------------------------------------------------------------------------
  // The splitter over cleaned lines, step by step as the loop runs it
  // ---------------------------------------------------------------------------

  /** The groups closed while reading the cleaned lines `cs` when `pending` is the group
      read so far: a line is added to the group when kept, and the group closes at a
      closing line. */
  function RunGroups(cs: seq<string>, pending: seq<string>): seq<seq<string>>
    decreases |cs|
  {
    if cs == [] then []
    else
      var group := if Kept(cs[0]) then pending + [cs[0]] else pending;
      if Closes(cs[0]) then [group] + RunGroups(cs[1..], [])
      else RunGroups(cs[1..], group)
  }

  /** `RunGroups` on the lines from position `k` on, read by position as the loop reads
      them. */
  function RunFrom(cs: seq<string>, k: nat, pending: seq<string>): seq<seq<string>>
    requires k <= |cs|
    decreases |cs| - k
  {
    if k == |cs| then []
    else
      var group := if Kept(cs[k]) then pending + [cs[k]] else pending;
      if Closes(cs[k]) then [group] + RunFrom(cs, k + 1, [])
      else RunFrom(cs, k + 1, group)
  }

  lemma {:induction false} RunFromIsRunGroups(cs: seq<string>, k: nat, pending: seq<string>)
    requires k <= |cs|
    ensures RunFrom(cs, k, pending) == RunGroups(cs[k..], pending)
    decreases |cs| - k
  {
    if k < |cs| {
      RunFromIsRunGroups(cs, k + 1, []);
      var group := if Kept(cs[k]) then pending + [cs[k]] else pending;
      RunFromIsRunGroups(cs, k + 1, group);
      assert cs[k..][0] == cs[k] && cs[k..][1..] == cs[k + 1..];
    }
  }

  /** What the engine is handed for a closed group: its join, unless that is empty. */
  function Emit(group: seq<string>): seq<string> {
    var line := Join(group);
    if |line| > 0 then [line] else []
  }

  /** What the engine is handed for a sequence of closed groups. */
  function EmitAll(groups: seq<seq<string>>): seq<string> {
    if groups == [] then [] else Emit(groups[0]) + EmitAll(groups[1..])
  }

  // ---------------------------------------------------------------------------
  // The splitter as a whole: groups between closing lines
  // ---------------------------------------------------------------------------

  /** The kept lines among the cleaned lines `cs`, in order. */
  function KeptLines(cs: seq<string>): seq<string>
    decreases |cs|
  {
    if cs == [] then []
    else (if Kept(cs[0]) then [cs[0]] else []) + KeptLines(cs[1..])
  }

  /** The index of the first closing line, or `|cs|` when no line closes a group. */
  function FirstClose(cs: seq<string>): (i: nat)
    ensures i <= |cs|
    decreases |cs|
  {
    if cs == [] then 0
    else if Closes(cs[0]) then 0
    else 1 + FirstClose(cs[1..])
  }

  /** No line before `FirstClose(cs)` closes a group, and the line there does. */
  lemma {:induction false} FirstCloseSpec(cs: seq<string>)
    ensures var i := FirstClose(cs);
      (forall j | 0 <= j < i :: !Closes(cs[j])) && (i < |cs| ==> Closes(cs[i]))
    decreases |cs|
  {
    if cs != [] && !Closes(cs[0]) {
      FirstCloseSpec(cs[1..]);
      forall j | 0 < j < FirstClose(cs)
        ensures !Closes(cs[j])
      {
        assert cs[j] == cs[1..][j - 1];
      }
    }
  }

  /** The closed groups of `cs`: for each closing line, the kept lines since the
      previous closing line, that line included. Lines after the last closing line
      belong to no group. */
  function Groups(cs: seq<string>): seq<seq<string>>
    decreases |cs|
  {
    var i := FirstClose(cs);
    if i == |cs| then [] else [KeptLines(cs[..i + 1])] + Groups(cs[i + 1..])
  }

  /** The lines after the last closing line. */
  function UnclosedTail(cs: seq<string>): seq<string>
    decreases |cs|
  {
    var i := FirstClose(cs);
    if i == |cs| then cs else UnclosedTail(cs[i + 1..])
  }

  function Flatten(groups: seq<seq<string>>): seq<string> {
    if groups == [] then [] else groups[0] + Flatten(groups[1..])
  }

  /** The joins of the non-empty groups. */
  function JoinNonEmpty(groups: seq<seq<string>>): seq<string> {
    if groups == [] then []
    else (if groups[0] == [] then [] else [Join(groups[0])]) + JoinNonEmpty(groups[1..])
  }

  /** The statements the cleaned lines `cs` hold: the non-empty groups, each joined. */
  function Statements(cs: seq<string>): seq<string> {
    JoinNonEmpty(Groups(cs))
  }

  /** The statements of a script. */
  function ScriptStatements(script: string): seq<string> {
    Statements(CleanAll(SplitLines(script)))
  }

  // ---------------------------------------------------------------------------
  // Lemmas
  // ---------------------------------------------------------------------------

  lemma {:induction false} KeptLinesAppend(a: seq<string>, b: seq<string>)
    ensures KeptLines(a + b) == KeptLines(a) + KeptLines(b)
    decreases |a|
  {
    if a != [] {
      assert (a + b)[0] == a[0];
      assert (a + b)[1..] == a[1..] + b;
      KeptLinesAppend(a[1..], b);
    } else {
      assert a + b == b;
    }
  }

  /** Only kept lines of `cs` are in `KeptLines(cs)`. */
  lemma {:induction false} KeptLinesKept(cs: seq<string>)
    ensures forall c | c in KeptLines(cs) :: Kept(c) && c in cs
    decreases |cs|
  {
    if cs != [] {
      KeptLinesKept(cs[1..]);
      assert forall c | c in cs[1..] :: c in cs;
    }
  }

  /** Every line of every group is a kept line of `cs`. */
  lemma {:induction false} GroupsKept(cs: seq<string>)
    ensures forall g | g in Groups(cs) :: forall c | c in g :: Kept(c) && c in cs
    decreases |cs|
  {
    var i := FirstClose(cs);
    if i < |cs| {
      var rest := cs[i + 1..];
      KeptLinesKept(cs[..i + 1]);
      GroupsKept(rest);
      var g0 := KeptLines(cs[..i + 1]);
      assert Groups(cs) == [g0] + Groups(rest);
      forall g | g in Groups(cs)
        ensures forall c | c in g :: Kept(c) && c in cs
      {
        if g == g0 {
          assert forall c | c in cs[..i + 1] :: c in cs;
        } else {
          assert g in Groups(rest);
          assert forall c | c in rest :: c in cs;
        }
      }
    }
  }

  /** Reading one more line before the cut: the kept lines of a prefix start with the
      first line when it is kept. */
  lemma KeptLinesHead(cs: seq<string>, n: nat)
    requires 0 < n <= |cs|
    ensures KeptLines(cs[..n]) == (if Kept(cs[0]) then [cs[0]] else []) + KeptLines(cs[1..][..n - 1])
  {
    assert cs[..n][0] == cs[0];
    assert cs[..n][1..] == cs[1..][..n - 1];
  }

  /** A closing first line closes the pending group with that line added when kept. */
  lemma RunClosesAtHead(cs: seq<string>, pending: seq<string>)
    requires cs != [] && Closes(cs[0])
    ensures RunGroups(cs, pending) == [pending + KeptLines(cs[..1])] + RunGroups(cs[1..], [])
  {
    KeptLinesHead(cs, 1);
    assert cs[1..][..0] == [];
    assert KeptLines(cs[..1]) == if Kept(cs[0]) then [cs[0]] else [];
    assert pending + [] == pending;
  }

  /** A first line that does not close only adds to the pending group. */
  lemma RunContinuesAtHead(cs: seq<string>, pending: seq<string>, i: nat)
    requires 0 < i < |cs| && !Closes(cs[0])
    ensures pending + KeptLines(cs[..i + 1]) ==
      (if Kept(cs[0]) then pending + [cs[0]] else pending) + KeptLines(cs[1..][..i])
  {
    KeptLinesHead(cs, i + 1);
  }

  /** The loop, read to the first closing line, closes the pending group together with
      the kept lines up to that line and then starts afresh. */
  lemma {:induction false} RunToFirstClose(cs: seq<string>, pending: seq<string>)
    ensures var i := FirstClose(cs);
      RunGroups(cs, pending) ==
        if i == |cs| then []
        else [pending + KeptLines(cs[..i + 1])] + RunGroups(cs[i + 1..], [])
    decreases |cs|
  {
    if cs != [] {
      var i := FirstClose(cs);
      if Closes(cs[0]) {
        RunClosesAtHead(cs, pending);
      } else {
        var group := if Kept(cs[0]) then pending + [cs[0]] else pending;
        var tail := cs[1..];
        assert RunGroups(cs, pending) == RunGroups(tail, group);
        RunToFirstClose(tail, group);
        assert i == 1 + FirstClose(tail);
        if i < |cs| {
          RunClosesLater(cs, pending, i);
        } else {
          assert RunGroups(tail, group) == [];
        }
      }
    }
  }

  /** When the first line does not close and line `i` is the first that does, the group
      closed at line `i` starts from the first line's contribution. */
  lemma RunClosesLater(cs: seq<string>, pending: seq<string>, i: nat)
    requires 0 < i < |cs| && !Closes(cs[0])
    requires var group := if Kept(cs[0]) then pending + [cs[0]] else pending;
      RunGroups(cs[1..], group) == [group + KeptLines(cs[1..][..i])] + RunGroups(cs[1..][i..], [])
    ensures var group := if Kept(cs[0]) then pending + [cs[0]] else pending;
      RunGroups(cs[1..], group) == [pending + KeptLines(cs[..i + 1])] + RunGroups(cs[i + 1..], [])
  {
    RunContinuesAtHead(cs, pending, i);
    assert cs[1..][i..] == cs[i + 1..];
  }

  /** The step-by-step loop and the group view agree: the loop closes exactly the groups
      between closing lines, in script order. */
  lemma {:induction false} RunIsGroups(cs: seq<string>)
    ensures RunGroups(cs, []) == Groups(cs)
    decreases |cs|
  {
    RunToFirstClose(cs, []);
    var i := FirstClose(cs);
    if i < |cs| {
      var g, rest := KeptLines(cs[..i + 1]), cs[i + 1..];
      assert [] + g == g;
      assert RunGroups(cs, []) == [g] + RunGroups(rest, []);
      assert Groups(cs) == [g] + Groups(rest);
      RunIsGroups(rest);
    } else {
      assert RunGroups(cs, []) == [] == Groups(cs);
    }
  }

  /** A group of kept lines is handed to the engine exactly when it is not empty. */
  lemma EmitKeptGroup(group: seq<string>)
    requires forall c | c in group :: Kept(c)
    ensures Emit(group) == if group == [] then [] else [Join(group)]
  {
    if group != [] {
      assert Kept(group[0]);
    }
  }

  lemma {:induction false} EmitAllKeptGroups(groups: seq<seq<string>>)
    requires forall g | g in groups :: forall c | c in g :: Kept(c)
    ensures EmitAll(groups) == JoinNonEmpty(groups)
    decreases |groups|
  {
    if groups != [] {
      assert groups[0] in groups;
      EmitKeptGroup(groups[0]);
      assert forall g | g in groups[1..] :: g in groups;
      EmitAllKeptGroups(groups[1..]);
    }
  }

  /** What the loop hands to the engine is the statements of the script: the single-space
      joins of the non-empty groups, in script order. */
  lemma RunIsStatements(cs: seq<string>)
    ensures EmitAll(RunGroups(cs, [])) == Statements(cs)
  {
    RunIsGroups(cs);
    GroupsKept(cs);
    EmitAllKeptGroups(Groups(cs));
  }

  /** Every kept line lies in a closed group, in script order, or among the lines after
      the last closing line; nothing else is in a group. */
  lemma {:induction false} GroupsInOrder(cs: seq<string>)
    ensures Flatten(Groups(cs)) + KeptLines(UnclosedTail(cs)) == KeptLines(cs)
    decreases |cs|
  {
    var i := FirstClose(cs);
    if i < |cs| {
      var g := KeptLines(cs[..i + 1]);
      var rest := cs[i + 1..];
      GroupsInOrder(rest);
      FlattenGroupsStep(cs, i);
      KeptLinesSplit(cs, i + 1);
      assert UnclosedTail(cs) == UnclosedTail(rest);
      Regroup(g, Flatten(Groups(rest)), KeptLines(UnclosedTail(rest)), KeptLines(rest));
    } else {
      assert Groups(cs) == [];
      assert UnclosedTail(cs) == cs;
    }
  }

  lemma Regroup(g: seq<string>, f: seq<string>, u: seq<string>, whole: seq<string>)
    requires f + u == whole
    ensures (g + f) + u == g + whole
  {
  }

  /** The lines of the groups: those of the first group, then those of the others. */
  lemma FlattenGroupsStep(cs: seq<string>, i: nat)
    requires i == FirstClose(cs) && i < |cs|
    ensures Flatten(Groups(cs)) == KeptLines(cs[..i + 1]) + Flatten(Groups(cs[i + 1..]))
  {
    GroupsFirst(cs, i);
    FlattenCons(KeptLines(cs[..i + 1]), Groups(cs[i + 1..]));
  }

  /** The first closed group, then the groups after it. */
  lemma GroupsFirst(cs: seq<string>, i: nat)
    requires i == FirstClose(cs) && i < |cs|
    ensures Groups(cs) == [KeptLines(cs[..i + 1])] + Groups(cs[i + 1..])
  {
  }

  /** The kept lines of `cs`, split at `n`. */
  lemma KeptLinesSplit(cs: seq<string>, n: nat)
    requires n <= |cs|
    ensures KeptLines(cs) == KeptLines(cs[..n]) + KeptLines(cs[n..])
  {
    assert cs == cs[..n] + cs[n..];
    KeptLinesAppend(cs[..n], cs[n..]);
  }

  lemma FlattenCons(g: seq<string>, groups: seq<seq<string>>)
    ensures Flatten([g] + groups) == g + Flatten(groups)
  {
    assert ([g] + groups)[1..] == groups;
  }

  /** The unclosed tail is a suffix of the script in which no line closes a group. */
  lemma {:induction false} UnclosedTailIsOpenSuffix(cs: seq<string>)
    ensures var tail := UnclosedTail(cs);
      |tail| <= |cs| && tail == cs[|cs| - |tail|..] &&
      forall j | 0 <= j < |tail| :: !Closes(tail[j])
    decreases |cs|
  {
    var i := FirstClose(cs);
    FirstCloseSpec(cs);
    if i < |cs| {
      var rest := cs[i + 1..];
      UnclosedTailIsOpenSuffix(rest);
      var tail := UnclosedTail(rest);
      assert rest[|rest| - |tail|..] == cs[|cs| - |tail|..];
    }
  }

  lemma NoDoubleDashConcat(a: string, b: string)
    requires !HasDoubleDash(a) && !HasDoubleDash(b)
    requires a == [] || b == [] || a[|a| - 1] != '-' || b[0] != '-'
    ensures !HasDoubleDash(a + b)
  {
    var s := a + b;
    forall i, j | 0 <= i && j == i + 1 < |s|
      ensures !(s[i] == '-' && s[j] == '-')
    {
      if j < |a| {
        assert s[i] == a[i] && s[j] == a[j];
      } else if i >= |a| {
        assert s[i] == b[i - |a|] && s[j] == b[j - |a|];
      }
    }
  }

  /** Joining with single spaces cannot create `--`. */
  lemma {:induction false} JoinNoDoubleDash(parts: seq<string>)
    requires forall p | p in parts :: !HasDoubleDash(p)
    ensures !HasDoubleDash(Join(parts))
    decreases |parts|
  {
    if |parts| > 1 {
      JoinNoDoubleDash(parts[1..]);
      assert !HasDoubleDash(" ");
      NoDoubleDashConcat(parts[0], " ");
      NoDoubleDashConcat(parts[0] + " ", Join(parts[1..]));
    }
  }

  lemma {:induction false} JoinNonEmptyClean(groups: seq<seq<string>>)
    requires forall g | g in groups :: forall c | c in g :: Kept(c) && !HasDoubleDash(c)
    ensures forall s | s in JoinNonEmpty(groups) :: |s| > 0 && !HasDoubleDash(s)
    decreases |groups|
  {
    if groups != [] {
      assert groups[0] in groups;
      assert forall g | g in groups[1..] :: g in groups;
      JoinNonEmptyClean(groups[1..]);
      if groups[0] != [] {
        JoinNoDoubleDash(groups[0]);
        assert Kept(groups[0][0]);
      }
    }
  }

  /** Every statement of a script is non-empty and holds no `--`: the text of a line from
      its first `--` onward never reaches the engine. */
  lemma ScriptStatementsClean(script: string)
    ensures forall s | s in ScriptStatements(script) :: |s| > 0 && !HasDoubleDash(s)
  {
    var cs := CleanAll(SplitLines(script));
    CleanAllNoDoubleDash(SplitLines(script));
    GroupsKept(cs);
    JoinNonEmptyClean(Groups(cs));
  }

  /** A blank or comment-only line (one that cleans to nothing) changes nothing, wherever
      it stands. */
  lemma {:induction false} RunSkipsBlank(pre: seq<string>, post: seq<string>, pending: seq<string>)
    ensures RunGroups(pre + [[]] + post, pending) == RunGroups(pre + post, pending)
    decreases |pre|
  {
    if pre == [] {
      assert (pre + [[]] + post)[0] == [];
      assert (pre + [[]] + post)[1..] == pre + post;
    } else {
      assert (pre + [[]] + post)[0] == pre[0];
      assert (pre + [[]] + post)[1..] == pre[1..] + [[]] + post;
      assert (pre + post)[0] == pre[0];
      assert (pre + post)[1..] == pre[1..] + post;
      var group := if Kept(pre[0]) then pending + [pre[0]] else pending;
      RunSkipsBlank(pre[1..], post, []);
      RunSkipsBlank(pre[1..], post, group);
    }
  }

  lemma BlankLineContributesNothing(pre: seq<string>, post: seq<string>)
    ensures Statements(pre + [[]] + post) == Statements(pre + post)
  {
    RunSkipsBlank(pre, post, []);
    RunIsGroups(pre + [[]] + post);
    RunIsGroups(pre + post);
  }

  /** Lines after the last closing line are never executed. */
  lemma {:induction false} RunIgnoresUnclosed(cs: seq<string>, tail: seq<string>, pending: seq<string>)
    requires forall j | 0 <= j < |tail| :: !Closes(tail[j])
    ensures RunGroups(cs + tail, pending) == RunGroups(cs, pending)
    decreases |cs| + |tail|
  {
    if cs == [] {
      assert cs + tail == tail;
      if tail != [] {
        var group := if Kept(tail[0]) then pending + [tail[0]] else pending;
        RunIgnoresUnclosed([], tail[1..], group);
        assert [] + tail[1..] == tail[1..];
      }
    } else {
      assert (cs + tail)[0] == cs[0];
      assert (cs + tail)[1..] == cs[1..] + tail;
      var group := if Kept(cs[0]) then pending + [cs[0]] else pending;
      RunIgnoresUnclosed(cs[1..], tail, []);
      RunIgnoresUnclosed(cs[1..], tail, group);
    }
  }

  lemma UnclosedLinesNeverExecuted(cs: seq<string>, tail: seq<string>)
    requires forall j | 0 <= j < |tail| :: !Closes(tail[j])
    ensures Statements(cs + tail) == Statements(cs)
  {
    RunIgnoresUnclosed(cs, tail, []);
    RunIsGroups(cs + tail);
    RunIsGroups(cs);
  }

  lemma {:induction false} FirstCloseIs(pre: seq<string>, c: string, post: seq<string>)
    requires forall j | 0 <= j < |pre| :: !Closes(pre[j])
    requires Closes(c)
    ensures FirstClose(pre + [c] + post) == |pre|
    decreases |pre|
  {
    if pre == [] {
      assert (pre + [c] + post)[0] == c;
    } else {
      assert (pre + [c] + post)[0] == pre[0];
      assert (pre + [c] + post)[1..] == pre[1..] + [c] + post;
      FirstCloseIs(pre[1..], c, post);
    }
  }

  /** A group closes exactly at the first closing line: the lines up to it form one group
      and the rest is split afresh. */
  lemma GroupClosesAt(pre: seq<string>, c: string, post: seq<string>)
    requires forall j | 0 <= j < |pre| :: !Closes(pre[j])
    requires Closes(c)
    ensures Groups(pre + [c] + post) == [KeptLines(pre + [c])] + Groups(post)
  {
    var cs := pre + [c] + post;
    FirstCloseIs(pre, c, post);
    assert cs[..|pre| + 1] == pre + [c];
    assert cs[|pre| + 1..] == post;
  }

  /** A `DROP` line never enters a statement, yet when it ends in `;` it still closes the
      group before it. */
  lemma DropLineClosesGroup(pre: seq<string>, c: string, post: seq<string>)
    requires forall j | 0 <= j < |pre| :: !Closes(pre[j])
    requires StartsWith(c, "DROP") && EndsWith(c, ";")
    ensures Statements(pre + [c] + post) ==
      (if KeptLines(pre) == [] then [] else [Join(KeptLines(pre))]) + Statements(post)
  {
    GroupClosesAt(pre, c, post);
    KeptLinesAppend(pre, [c]);
    assert KeptLines([c]) == [] + KeptLines([]) by {
      assert [c][0] == c && [c][1..] == [];
    }
    assert KeptLines(pre + [c]) == KeptLines(pre);
    var gs := [KeptLines(pre)] + Groups(post);
    assert gs[1..] == Groups(post);
  }

  /** The comment cut is not re-stripped, so a `;` followed by a comment does not close. */
  lemma TrailingCommentKeepsGroupOpen()
    ensures Cleaned("x; -- c") == "x; "
    ensures !Closes(Cleaned("x; -- c"))
  {
    var s := "x; -- c";
    assert StripLeft(s) == s;
    assert StripRight(s) == s;
    assert s[1..][1..][1..] == "-- c";
    assert CutComment(s[1..][1..][1..]) == [];
    assert CutComment(s[1..][1..]) == " ";
    assert CutComment(s[1..]) == "; ";
    assert CutComment(s) == "x; ";
  }

  // ---------------------------------------------------------------------------
  // `executescript`
  // ---------------------------------------------------------------------------

  /** The statements handed to `exec` when the engine answers `engineOk(done, s)` for a
      statement `s` that follows the statements `done` this script has already executed:
      every statement up to and including the first one it rejects, at which point
      `DatabaseError` ends the script. */
  function Handed(done: seq<string>, stmts: seq<string>, engineOk: (seq<string>, string) -> bool)
    : (log: seq<string>)
    ensures |log| <= |stmts|
    decreases |stmts|
  {
    if stmts == [] then []
    else if !engineOk(done, stmts[0]) then [stmts[0]]
    else [stmts[0]] + Handed(done + [stmts[0]], stmts[1..], engineOk)
  }

  /** The statements before position `m` seen from `done`, or from `done` extended by the
      first statement. */
  lemma PrefixStep(done: seq<string>, stmts: seq<string>, m: nat)
    requires 0 < m <= |stmts|
    ensures done + stmts[..m] == (done + [stmts[0]]) + stmts[1..][..m - 1]
  {
    assert stmts[..m] == [stmts[0]] + stmts[1..][..m - 1];
  }

  /** The statement handed over after an accepted first one. */
  lemma HandedCons(done: seq<string>, stmts: seq<string>, engineOk: (seq<string>, string) -> bool)
    requires stmts != [] && engineOk(done, stmts[0])
    ensures Handed(done, stmts, engineOk) == [stmts[0]] + Handed(done + [stmts[0]], stmts[1..], engineOk)
  {
  }

  /** Every statement handed over but the last was accepted by the engine after the
      statements before it. */
  lemma {:induction false} HandedAcceptsBefore(done: seq<string>, stmts: seq<string>,
                                               engineOk: (seq<string>, string) -> bool, k: nat)
    requires k + 1 < |Handed(done, stmts, engineOk)|
    ensures engineOk(done + stmts[..k], stmts[k])
    decreases k
  {
    assert engineOk(done, stmts[0]);
    if k == 0 {
      assert done + stmts[..0] == done;
    } else {
      HandedCons(done, stmts, engineOk);
      HandedAcceptsBefore(done + [stmts[0]], stmts[1..], engineOk, k - 1);
      PrefixStep(done, stmts, k);
      assert stmts[1..][k - 1] == stmts[k];
    }
  }

  /** Either every statement is handed over, or the last one handed over was rejected by
      the engine after the statements before it. */
  lemma {:induction false} HandedStopsAtRejection(done: seq<string>, stmts: seq<string>,
                                                  engineOk: (seq<string>, string) -> bool)
    ensures var n := |Handed(done, stmts, engineOk)|;
      n == |stmts| || (0 < n && !engineOk(done + stmts[..n - 1], stmts[n - 1]))
    decreases |stmts|
  {
    if stmts != [] {
      if !engineOk(done, stmts[0]) {
        assert done + stmts[..0] == done;
      } else {
        HandedCons(done, stmts, engineOk);
        HandedStopsAtRejection(done + [stmts[0]], stmts[1..], engineOk);
        var n := |Handed(done, stmts, engineOk)|;
        if n < |stmts| {
          PrefixStep(done, stmts, n - 1);
          assert stmts[1..][n - 2] == stmts[n - 1];
        }
      }
    }
  }

  /** What is handed over is a prefix of the statements. */
  lemma {:induction false} HandedIsPrefix(done: seq<string>, stmts: seq<string>,
                                          engineOk: (seq<string>, string) -> bool)
    ensures Handed(done, stmts, engineOk) <= stmts
    decreases |stmts|
  {
    if stmts != [] && engineOk(done, stmts[0]) {
      HandedIsPrefix(done + [stmts[0]], stmts[1..], engineOk);
      assert stmts == [stmts[0]] + stmts[1..];
    }
  }

  lemma HandedAccepted(done: seq<string>, line: string, rest: seq<string>,
                       engineOk: (seq<string>, string) -> bool)
    requires engineOk(done, line)
    ensures Handed(done, [line] + rest, engineOk) == [line] + Handed(done + [line], rest, engineOk)
  {
    assert ([line] + rest)[0] == line && ([line] + rest)[1..] == rest;
  }

  lemma HandedRejected(done: seq<string>, line: string, rest: seq<string>,
                       engineOk: (seq<string>, string) -> bool)
    requires !engineOk(done, line)
    ensures Handed(done, [line] + rest, engineOk) == [line]
  {
    assert ([line] + rest)[0] == line;
  }

  lemma EmitAllCons(group: seq<string>, groups: seq<seq<string>>)
    ensures EmitAll([group] + groups) == Emit(group) + EmitAll(groups)
  {
    assert ([group] + groups)[0] == group && ([group] + groups)[1..] == groups;
  }

  lemma EmitAllSkipsEmpty(group: seq<string>, rest: seq<seq<string>>)
    requires |Join(group)| == 0
    ensures EmitAll([group] + rest) == EmitAll(rest)
  {
    EmitAllCons(group, rest);
    assert Emit(group) == [];
  }

  lemma HandedStep(log: seq<string>, group: seq<string>, rest: seq<seq<string>>,
                   engineOk: (seq<string>, string) -> bool)
    requires |Join(group)| > 0 && engineOk(log, Join(group))
    ensures log + Handed(log, EmitAll([group] + rest), engineOk) ==
      (log + [Join(group)]) + Handed(log + [Join(group)], EmitAll(rest), engineOk)
  {
    EmitAllCons(group, rest);
    HandedAccepted(log, Join(group), EmitAll(rest), engineOk);
  }

  /** Handing over the statement of one closed group, then those of the groups after it. */
  lemma HandGroup(log: seq<string>, group: seq<string>, rest: seq<seq<string>>,
                  engineOk: (seq<string>, string) -> bool)
    ensures var line := Join(group);
      log + Handed(log, EmitAll([group] + rest), engineOk) ==
        if |line| == 0 then log + Handed(log, EmitAll(rest), engineOk)
        else if engineOk(log, line) then (log + [line]) + Handed(log + [line], EmitAll(rest), engineOk)
        else log + [line]
  {
    var line := Join(group);
    if |line| == 0 {
      EmitAllSkipsEmpty(group, rest);
    } else if engineOk(log, line) {
      HandedStep(log, group, rest, engineOk);
    } else {
      EmitAllCons(group, rest);
      HandedRejected(log, line, EmitAll(rest), engineOk);
    }
  }

  /** The string tests the splitter calls. */
  datatype StrTest = PrefixTest | SuffixTest

  /** Looking up the method `name` on a Python `str`: `startswith` and `endswith` exist;
      any other name fails with `AttributeError`. */
  function StrMethod(name: string): Result<StrTest, PyError> {
    if name == "startswith" then Ok(PrefixTest)
    else if name == "endswith" then Ok(SuffixTest)
    else Err(AttributeError)
  }

  /** Calling a string test found by `StrMethod` on `s` with argument `arg`. */
  predicate Call(test: StrTest, s: string, arg: string) {
    match test
    case PrefixTest => StartsWith(s, arg)
    case SuffixTest => EndsWith(s, arg)
  }

  /** `name` is a method of `str`. */
  predicate IsStrMethod(name: string) {
    StrMethod(name).Ok?
  }

  /** The method names under which `str` has the prefix and the suffix test. */
  predicate Intended(prefix: string, suffix: string) {
    prefix == "startswith" && suffix == "endswith"
  }

  /** One pass of the inner loop over line `k`, with the prefix test called by the name
      `prefix` and the suffix test by the name `suffix`. With the intended names the
      cleaned line joins the pending group when kept, and `closed` tells whether it ends
      the group. A name `str` lacks raises `AttributeError` before the group closes. */
  method ReadLine(prefix: string, suffix: string, lines: seq<string>, k: nat, pending: seq<string>)
    returns (group: seq<string>, closed: bool, raised: Option<PyError>)
    requires k < |lines|
    ensures raised.Some? ==> !closed
    ensures Intended(prefix, suffix) ==> raised == None
    ensures Intended(prefix, suffix) ==>
      RunFrom(CleanAll(lines), k, pending) ==
        if closed then [group] + RunFrom(CleanAll(lines), k + 1, [])
        else RunFrom(CleanAll(lines), k + 1, group)
    ensures !IsStrMethod(prefix) || !IsStrMethod(suffix) ==> raised == Some(AttributeError)
  {
    var cleaned := Cleaned(lines[k]);
    CleanAllAt(lines, k);
    group, closed := pending, false;
    var startsWith := StrMethod(prefix);
    if startsWith.Err? {
      return group, closed, Some(startsWith.error);
    }
    if !(Call(startsWith.value, cleaned, "--") || Call(startsWith.value, cleaned, "DROP"))
       && |cleaned| > 0 {
      group := pending + [cleaned];
    }
    var endsWith := StrMethod(suffix);
    if endsWith.Err? {
      return group, closed, Some(endsWith.error);
    }
    // `break` at a line ending in `;`, `finished = True` at one starting with `COMMIT`:
    // either way the group ends with this line.
    closed := Call(endsWith.value, cleaned, ";") || Call(startsWith.value, cleaned, "COMMIT");
    raised := None;
  }

  /** The inner loop of `executescript`: reads lines from `start` until one closes the
      group (`closed`), or until the lines run out and `next(iter_lines)` raises
      StopIteration, which drops the unclosed group (`!closed`), or until a line raises. */
  method ReadGroup(prefix: string, suffix: string, lines: seq<string>, start: nat)
    returns (group: seq<string>, next: nat, closed: bool, raised: Option<PyError>)
    requires start <= |lines|
    ensures start <= next <= |lines|
    ensures closed ==> start < next
    ensures Intended(prefix, suffix) ==> raised == None
    ensures Intended(prefix, suffix) && closed ==>
      RunFrom(CleanAll(lines), start, []) == [group] + RunFrom(CleanAll(lines), next, [])
    ensures Intended(prefix, suffix) && !closed ==> RunFrom(CleanAll(lines), start, []) == []
    ensures !IsStrMethod(prefix) || !IsStrMethod(suffix) ==>
      !closed && raised == if start < |lines| then Some(AttributeError) else None
  {
    ghost var cs := CleanAll(lines);
    ghost var bad := !IsStrMethod(prefix) || !IsStrMethod(suffix);
    group, next, closed, raised := [], start, false, None;
    while !closed && raised == None && next < |lines|
      invariant start <= next <= |lines|
      invariant closed ==> start < next
      invariant Intended(prefix, suffix) ==> raised == None
      invariant Intended(prefix, suffix) && !closed ==> RunFrom(cs, start, []) == RunFrom(cs, next, group)
      invariant Intended(prefix, suffix) && closed ==>
        RunFrom(cs, start, []) == [group] + RunFrom(cs, next, [])
      invariant bad ==> !closed && raised == if next == start then None else Some(AttributeError)
      decreases |lines| - next
    {
      group, closed, raised := ReadLine(prefix, suffix, lines, next, group);
      next := next + 1;
    }
  }

  /** The end of one pass of the outer loop: the join of the closed group is handed to
      `exec` unless it is empty, and `rejected` tells whether the engine refused it. */
  method ExecGroup(log: seq<string>, group: seq<string>, engineOk: (seq<string>, string) -> bool)
    returns (handed: seq<string>, rejected: bool)
    requires log != [] ==> engineOk(log[..|log| - 1], log[|log| - 1])
    ensures handed == if |Join(group)| == 0 then log else log + [Join(group)]
    ensures rejected <==> |Join(group)| > 0 && !engineOk(log, Join(group))
    ensures handed != [] ==> (rejected <==> !engineOk(handed[..|handed| - 1], handed[|handed| - 1]))
  {
    var line := Join(group);
    handed, rejected := log, false;
    if |line| > 0 {
      handed := log + [line];
      assert handed[..|log|] == log;
      rejected := !engineOk(log, line);
    }
  }

  /** Running the groups from the first line yields the statements of the script. */
  lemma RunFromStart(script: string)
    ensures ScriptStatements(script) == EmitAll(RunFrom(CleanAll(SplitLines(script)), 0, []))
  {
    var cs := CleanAll(SplitLines(script));
    RunIsStatements(cs);
    RunFromIsRunGroups(cs, 0, []);
    assert cs[0..] == cs;
  }

  /** One pass of the outer loop of `executescript`, from line `k`: reads a group, then hands
      its statement to `exec`. `stop` says the loop ends with this pass, raising `raised`
      (a group left unclosed at the end of the script stops it without raising). */
  method Pass(prefix: string, suffix: string, lines: seq<string>, k: nat, log: seq<string>,
              engineOk: (seq<string>, string) -> bool)
    returns (next: nat, handed: seq<string>, stop: bool, raised: Option<PyError>)
    requires k < |lines|
    requires log != [] ==> engineOk(log[..|log| - 1], log[|log| - 1])
    ensures !stop ==> k < next <= |lines| && raised == None
    ensures !stop && handed != [] ==> engineOk(handed[..|handed| - 1], handed[|handed| - 1])
    ensures Intended(prefix, suffix) && !stop ==>
      log + Handed(log, EmitAll(RunFrom(CleanAll(lines), k, [])), engineOk) ==
        handed + Handed(handed, EmitAll(RunFrom(CleanAll(lines), next, [])), engineOk)
    ensures Intended(prefix, suffix) && stop ==>
      log + Handed(log, EmitAll(RunFrom(CleanAll(lines), k, [])), engineOk) == handed
    ensures Intended(prefix, suffix) && stop ==>
      raised == if handed != [] && !engineOk(handed[..|handed| - 1], handed[|handed| - 1])
                then Some(DatabaseError) else None
    ensures !IsStrMethod(prefix) || !IsStrMethod(suffix) ==>
      stop && handed == log && raised == Some(AttributeError)
  {
    var group, closed;
    group, next, closed, raised := ReadGroup(prefix, suffix, lines, k);
    if raised.Some? {
      return next, log, true, raised;
    }
    if !closed {
      return next, log, true, None;
    }
    HandGroup(log, group, RunFrom(CleanAll(lines), next, []), engineOk);
    var rejected;
    handed, rejected := ExecGroup(log, group, engineOk);
    stop := rejected;
    raised := if rejected then Some(DatabaseError) else None;
  }

  /** `Cursor.executescript`, calling the prefix test by the name `prefix` and the suffix
      test by the name `suffix`. `log` is the sequence of statements handed to `exec`;
      `raised` is the exception that ends the call, if any. */
  method RunScript(prefix: string, suffix: string, script: string,
                   engineOk: (seq<string>, string) -> bool)
    returns (log: seq<string>, raised: Option<PyError>)
    ensures Intended(prefix, suffix) ==> log == Handed([], ScriptStatements(script), engineOk)
    ensures Intended(prefix, suffix) ==>
      raised == if log != [] && !engineOk(log[..|log| - 1], log[|log| - 1]) then Some(DatabaseError)
                else None
    ensures !IsStrMethod(prefix) || !IsStrMethod(suffix) ==>
      log == [] && raised == if SplitLines(script) == [] then None else Some(AttributeError)
  {
    var lines := SplitLines(script);
    ghost var cs := CleanAll(lines);
    ghost var good := Intended(prefix, suffix);
    ghost var bad := !IsStrMethod(prefix) || !IsStrMethod(suffix);
    RunFromStart(script);
    ghost var target := Handed([], ScriptStatements(script), engineOk);
    ghost var rest := EmitAll(RunFrom(cs, 0, []));
    var k := 0;
    log, raised := [], None;
    while k < |lines|
      invariant 0 <= k <= |lines|
      invariant rest == EmitAll(RunFrom(cs, k, []))
      invariant good ==> target == log + Handed(log, rest, engineOk)
      invariant log != [] ==> engineOk(log[..|log| - 1], log[|log| - 1])
      invariant raised == None
      invariant bad ==> k == 0 && log == []
      decreases |lines| - k
    {
      var next, handed, stop, err := Pass(prefix, suffix, lines, k, log, engineOk);
      if stop {
        return handed, err;
      }
      log, k := handed, next;
      rest := EmitAll(RunFrom(cs, k, []));
    }
    assert rest == [];
  }

  /** `Cursor.executescript` with the prefix and suffix tests the code evidently means. */
  method ExecuteScript(script: string, engineOk: (seq<string>, string) -> bool)
    returns (log: seq<string>, raised: Option<PyError>)
    ensures log == Handed([], ScriptStatements(script), engineOk)
    ensures raised == if log != [] && !engineOk(log[..|log| - 1], log[|log| - 1]) then Some(DatabaseError)
                      else None
  {
    log, raised := RunScript("startswith", "endswith", script, engineOk);
  }

  /** `Cursor.executescript` exactly as written, calling `startsWith` and `endsWith`,
      which Python's `str` lacks: the first line read raises `AttributeError` before
      anything is executed, and only a script without lines completes. */
  method ExecuteScriptAsWritten(script: string, engineOk: (seq<string>, string) -> bool)
    returns (log: seq<string>, raised: Option<PyError>)
    ensures log == []
    ensures raised == if SplitLines(script) == [] then None else Some(AttributeError)
  {
    assert "startsWith"[6] != "startswith"[6] && |"startsWith"| != |"endswith"|;
    log, raised := RunScript("startsWith", "endsWith", script, engineOk);
  }

  lemma {:induction false} SplitLinesWhole(s: string, current: string)
    requires NoBoundary(current) && NoBoundary(s) && current + s != []
    ensures SplitLinesFrom(s, current) == [current + s]
    decreases |s|
  {
    if s == [] {
      assert current + s == current;
    } else {
      assert !IsLineBoundary(s[0]);
      assert NoBoundary(current + [s[0]]) by {
        assert forall j | 0 <= j < |current| :: (current + [s[0]])[j] == current[j];
      }
      SplitLinesWhole(s[1..], current + [s[0]]);
      assert current + [s[0]] + s[1..] == current + s;
    }
  }

  /** A script of one line holding one closing statement, with no whitespace at its ends
      and no comment. */
  predicate SingleStatement(s: string) {
    s != [] && NoBoundary(s) && !IsSpace(s[0]) && !IsSpace(s[|s| - 1]) &&
    !HasDoubleDash(s) && Kept(s) && Closes(s)
  }

  /** A line with no whitespace at either end and no `--` is its own cleaned text. */
  lemma CleanedWhole(s: string)
    requires s != [] && !IsSpace(s[0]) && !IsSpace(s[|s| - 1]) && !HasDoubleDash(s)
    ensures Cleaned(s) == s
  {
    assert StripLeft(s) == s;
    assert StripRight(s) == s;
    CutCommentWhole(s);
  }

  lemma SingleStatementLines(s: string)
    requires SingleStatement(s)
    ensures CleanAll(SplitLines(s)) == [s]
  {
    SplitLinesWhole(s, []);
    assert [] + s == s;
    CleanedWhole(s);
    assert CleanAll([s]) == [Cleaned(s)] + CleanAll([]);
  }

  /** The intended splitter executes a one-statement script as that one statement. */
  lemma SingleStatementScript(s: string)
    requires SingleStatement(s)
    ensures ScriptStatements(s) == [s]
  {
    SingleStatementLines(s);
    var cs := [s];
    assert FirstClose(cs) == 0;
    assert cs[..1] == cs && cs[1..] == [];
    assert KeptLines(cs) == [s] + KeptLines([]);
    assert Groups(cs) == [KeptLines(cs[..1])] + Groups(cs[1..]);
    assert Groups(cs) == [[s]];
    assert JoinNonEmpty([[s]]) == [Join([s])] + JoinNonEmpty([]);
  }

  /** A one-statement script has a line, so the code as written raises on it, and the
      intended splitter executes it as that one statement. */
  lemma SingleStatementHasLineAndStatement(s: string)
    requires SingleStatement(s)
    ensures SplitLines(s) != []
    ensures ScriptStatements(s) == [s]
  {
    SingleStatementLines(s);
    SingleStatementScript(s);
  }

  /** `SELECT 1;` is such a script. */
  lemma SelectOneIsSingleStatement(s: string)
    requires s == "SELECT 1;"
    ensures SingleStatement(s)
  {
    assert s[0] == 'S' && s[|s| - 1] == ';';
    assert NoBoundary(s);
    assert !HasDoubleDash(s);
  }

  /** `SELECT 1;` run both ways with an engine that accepts it: as written nothing is
      executed and `AttributeError` is raised; as intended the statement is executed. */
  method SelectOneBothWays(engineOk: (seq<string>, string) -> bool)
    returns (written: (seq<string>, Option<PyError>), intended: (seq<string>, Option<PyError>))
    requires engineOk([], "SELECT 1;")
    ensures written == ([], Some(AttributeError))
    ensures intended == (["SELECT 1;"], None)
  {
    var script := "SELECT 1;";
    SelectOneIsSingleStatement(script);
    SingleStatementHasLineAndStatement(script);
    var log, raised := ExecuteScriptAsWritten(script, engineOk);
    written := (log, raised);
    log, raised := ExecuteScript(script, engineOk);
    assert Handed([], [script], engineOk) == [script];
    intended := (log, raised);
  }
}
