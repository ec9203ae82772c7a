/** The diff test-signal scanner (`count_tests_in_diff`): the net number of
    diff lines that add a `test(`-like call, minus those that remove one. */
module ContentUtils {

  // ---------------------------------------------------------------------
  // Characters and line splitting
  // ---------------------------------------------------------------------

  /** ASCII approximation of the regex class `\w`. */
  predicate IsWordChar(c: char) {
    ('a' <= c <= 'z') || ('A' <= c <= 'Z') || ('0' <= c <= '9') || c == '_'
  }

  /** ASCII approximation of the regex class `\s`. */
  predicate IsSpace(c: char) {
    c == ' ' || c == '\t' || c == '\n' || c == '\r' || c == '\U{B}' || c == '\U{C}'
  }

  predicate StartsWith(s: string, prefix: string) {
    |prefix| <= |s| && s[..|prefix|] == prefix
  }

  /** The index of the first newline at or after `i`, or `|s|` if there is none. */
  function LineEnd(s: string, i: nat): (k: nat)
    requires i <= |s|
    ensures i <= k <= |s|
    ensures k < |s| ==> s[k] == '\n'
    ensures forall m :: i <= m < k ==> s[m] != '\n'
    decreases |s| - i
  {
    if i == |s| || s[i] == '\n' then i else LineEnd(s, i + 1)
  }

  /** `str.splitlines()` restricted to '\n' as the only line break: the pieces
      between newlines, with no empty piece after a final newline. */
  function SplitLines(s: string): (lines: seq<string>)
    ensures forall j :: 0 <= j < |lines| ==> '\n' !in lines[j]
    ensures s == [] <==> lines == []
    decreases |s|
  {
    if s == [] then []
    else
      var k := LineEnd(s, 0);
      if k == |s| then [s] else [s[..k]] + SplitLines(s[k + 1..])
  }

  /** The text whose lines are `lines`, each terminated by a newline. */
  function Unlines(lines: seq<string>): string {
    if lines == [] then "" else lines[0] + "\n" + Unlines(lines[1..])
  }

  predicate NoNewlines(lines: seq<string>) {
    forall j :: 0 <= j < |lines| ==> '\n' !in lines[j]
  }

  lemma LineEndAt(line: string, rest: string)
    requires '\n' !in line
    ensures LineEnd(line + "\n" + rest, 0) == |line|
  {
    var s := line + "\n" + rest;
    var k := LineEnd(s, 0);
    assert s[|line|] == '\n';
  }

  /** Splitting the newline-terminated rendering of a list of lines gives the
      list back. */
  lemma {:induction false} SplitUnlines(lines: seq<string>)
    requires NoNewlines(lines)
    ensures SplitLines(Unlines(lines)) == lines
  {
    if lines != [] {
      var s := Unlines(lines);
      var rest := Unlines(lines[1..]);
      assert s == lines[0] + "\n" + rest;
      LineEndAt(lines[0], rest);
      assert s[..|lines[0]|] == lines[0];
      assert s[|lines[0]| + 1..] == rest;
      SplitUnlines(lines[1..]);
    }
  }

  /** Rendering is additive over concatenated line lists. */
  /** Appending one line appends it and its newline. */
  lemma UnlinesSnoc(lines: seq<string>, line: string)
    ensures Unlines(lines + [line]) == Unlines(lines) + line + "\n"
  {
    UnlinesAppend(lines, [line]);
    assert [line][1..] == [];
    assert Unlines([line]) == line + "\n" + "";
  }

  lemma NoNewlinesAppend(a: seq<string>, b: seq<string>)
    requires NoNewlines(a) && NoNewlines(b)
    ensures NoNewlines(a + b)
  {
    forall j | 0 <= j < |a + b| ensures '\n' !in (a + b)[j] {
      if j >= |a| {
        assert (a + b)[j] == b[j - |a|];
      }
    }
  }

  lemma {:induction false} UnlinesAppend(a: seq<string>, b: seq<string>)
    ensures Unlines(a + b) == Unlines(a) + Unlines(b)
  {
    if a != [] {
      assert (a + b)[1..] == a[1..] + b;
      UnlinesAppend(a[1..], b);
    } else {
      assert a + b == b;
    }
  }

  /** Joining the lines of a newline-terminated text gives the text back. */
  lemma {:induction false} UnlinesSplit(s: string)
    requires s == [] || s[|s| - 1] == '\n'
    ensures Unlines(SplitLines(s)) == s
    decreases |s|
  {
    if s != [] {
      var k := LineEnd(s, 0);
      assert k < |s|;
      var tail := s[k + 1..];
      assert tail == [] || tail[|tail| - 1] == '\n';
      UnlinesSplit(tail);
      assert SplitLines(s) == [s[..k]] + SplitLines(tail);
      assert s == s[..k] + "\n" + tail;
    }
  }

  // ---------------------------------------------------------------------
  // The per-line pattern `\btest\s*\(`
  // ---------------------------------------------------------------------

  /** Regex semantics of `\s*\(` starting at index `k`: some `(` at or after
      `k` with only whitespace before it. */
  ghost predicate CallOpensAt(line: string, k: nat, j: int) {
    k <= j < |line| && line[j] == '(' && forall m :: k <= m < j ==> IsSpace(line[m])
  }

  /** Regex semantics of `\btest\s*\(` matching at index `i` of a line whose
      first character was consumed by the anchored `^\+` (or `^\-`). The word
      boundary before `t` needs a non-word character before it. */
  ghost predicate TestCallAt(line: string, i: int) {
    1 <= i && i + 4 <= |line| && line[i..i + 4] == "test" && !IsWordChar(line[i - 1]) &&
    exists j :: i + 4 <= j < |line| && line[j] == '(' && forall m :: i + 4 <= m < j ==> IsSpace(line[m])
  }

  /** The anchored pattern `^<sign>.*\btest\s*\(` matches the line. */
  ghost predicate PatternMatches(sign: char, line: string) {
    |line| >= 1 && line[0] == sign && exists i :: TestCallAt(line, i)
  }

  /** Executable scan for `\s*\(` from index `k`. */
  predicate CallFollows(line: string, k: nat)
    decreases |line| - k
  {
    k < |line| && (line[k] == '(' || (IsSpace(line[k]) && CallFollows(line, k + 1)))
  }

  /** Executable scan for `\btest\s*\(` at some index `>= i`. */
  predicate TestCallFrom(line: string, i: nat)
    requires 1 <= i
    decreases |line| - i
  {
    i + 4 <= |line| &&
    ((line[i..i + 4] == "test" && !IsWordChar(line[i - 1]) && CallFollows(line, i + 4))
     || TestCallFrom(line, i + 1))
  }

  lemma {:induction false} CallFollowsMeaning(line: string, k: nat)
    ensures CallFollows(line, k) <==> exists j :: CallOpensAt(line, k, j)
    decreases |line| - k
  {
    if k < |line| {
      CallFollowsMeaning(line, k + 1);
      if CallFollows(line, k) {
        if line[k] == '(' {
          assert CallOpensAt(line, k, k);
        } else {
          var j :| CallOpensAt(line, k + 1, j);
          assert CallOpensAt(line, k, j);
        }
      }
      forall j | CallOpensAt(line, k, j) ensures CallFollows(line, k) {
        if j > k {
          assert IsSpace(line[k]);
          assert CallOpensAt(line, k + 1, j);
        }
      }
    }
  }

  lemma {:induction false} TestCallFromMeaning(line: string, i: nat)
    requires 1 <= i
    ensures TestCallFrom(line, i) <==> exists p :: i <= p && TestCallAt(line, p)
    decreases |line| - i
  {
    if i + 4 <= |line| {
      CallFollowsMeaning(line, i + 4);
      TestCallFromMeaning(line, i + 1);
      if TestCallFrom(line, i) && !TestCallFrom(line, i + 1) {
        var j :| CallOpensAt(line, i + 4, j);
        assert TestCallAt(line, i);
      }
      forall p | i <= p && TestCallAt(line, p) ensures TestCallFrom(line, i) {
        if p == i {
          var j :| i + 4 <= j < |line| && line[j] == '(' && forall m :: i + 4 <= m < j ==> IsSpace(line[m]);
          assert CallOpensAt(line, i + 4, j);
        }
      }
    } else {
      forall p | i <= p && TestCallAt(line, p) ensures false { }
    }
  }

  /** The anchored pattern matches exactly when the executable scan finds
      `test` followed by a call from index 1 on. */
  lemma PatternMatchesIffScan(sign: char, line: string)
    ensures PatternMatches(sign, line) <==> |line| >= 1 && line[0] == sign && TestCallFrom(line, 1)
  {
    TestCallFromMeaning(line, 1);
    if PatternMatches(sign, line) {
      var p :| TestCallAt(line, p);
      assert 1 <= p;
    }
  }

  /** The number of matches `findall` returns for the anchored pattern of
      `sign` on one line: it finds one match when the pattern matches and none
      otherwise. */
  function PatternCount(sign: char, line: string): (n: nat)
    ensures n <= 1
    ensures n == 1 <==> PatternMatches(sign, line)
  {
    PatternMatchesIffScan(sign, line);
    if |line| >= 1 && line[0] == sign && TestCallFrom(line, 1) then 1 else 0
  }

  // ---------------------------------------------------------------------
  // Line classification and the reference counts
  // ---------------------------------------------------------------------

  predicate IsAddedLine(line: string) {
    StartsWith(line, "+") && !StartsWith(line, "+++")
  }

  predicate IsRemovedLine(line: string) {
    StartsWith(line, "-") && !StartsWith(line, "---")
  }

  /** What one line adds to the added counter. */
  function AddedBy(line: string): nat {
    if IsAddedLine(line) then PatternCount('+', line) else 0
  }

  /** What one line adds to the subtracted counter. */
  function RemovedBy(line: string): nat {
    if !IsAddedLine(line) && IsRemovedLine(line) then PatternCount('-', line) else 0
  }

  /** Reference count of added test calls over a list of lines. */
  function AddedTests(lines: seq<string>): nat {
    if lines == [] then 0 else AddedTests(lines[..|lines| - 1]) + AddedBy(lines[|lines| - 1])
  }

  /** Reference count of removed test calls over a list of lines. */
  function RemovedTests(lines: seq<string>): nat {
    if lines == [] then 0 else RemovedTests(lines[..|lines| - 1]) + RemovedBy(lines[|lines| - 1])
  }

  /** The net delta over a list of lines. */
  function LinesDelta(lines: seq<string>): int {
    AddedTests(lines) - RemovedTests(lines)
  }

  /** The value `count_tests_in_diff(diff)` returns. */
  function DiffDelta(diff: string): int {
    LinesDelta(SplitLines(diff))
  }

  /** `count_tests_in_diff`: one pass over the lines, counting added and
      removed test calls. */
  method CountTestsInDiff(diff: string) returns (delta: int)
    ensures delta == AddedTests(SplitLines(diff)) - RemovedTests(SplitLines(diff))
  {
    var lines := SplitLines(diff);
    var added, subtracted := 0, 0;
    for i := 0 to |lines|
      invariant added == AddedTests(lines[..i])
      invariant subtracted == RemovedTests(lines[..i])
    {
      var line := lines[i];
      assert lines[..i + 1][..i] == lines[..i];
      if IsAddedLine(line) {
        added := added + PatternCount('+', line);
      } else if IsRemovedLine(line) {
        subtracted := subtracted + PatternCount('-', line);
      }
    }
    assert lines[..|lines|] == lines;
    delta := added - subtracted;
  }

  // ---------------------------------------------------------------------
  // Properties of the scan
  // ---------------------------------------------------------------------

  /** Number of lines in the list that satisfy `p`. */
  function CountLines(lines: seq<string>, p: string -> bool): nat {
    if lines == [] then 0
    else CountLines(lines[..|lines| - 1], p) + (if p(lines[|lines| - 1]) then 1 else 0)
  }

  /** An added line counts exactly when it carries `test`, preceded by a
      non-word character, then optional whitespace and `(`. */
  lemma AddedLineCounts(line: string)
    requires IsAddedLine(line)
    ensures AddedBy(line) == 1 <==> PatternMatches('+', line)
    ensures RemovedBy(line) == 0
  {
  }

  /** A removed line counts exactly when the same pattern follows its `-`. */
  lemma RemovedLineCounts(line: string)
    requires IsRemovedLine(line)
    ensures RemovedBy(line) == 1 <==> PatternMatches('-', line)
    ensures AddedBy(line) == 0
  {
  }

  /** Each line contributes at most one, so the delta lies between minus the
      number of removed lines and the number of added lines. */
  lemma {:induction false} DeltaBounds(lines: seq<string>)
    ensures AddedTests(lines) <= CountLines(lines, IsAddedLine)
    ensures RemovedTests(lines) <= CountLines(lines, IsRemovedLine)
    ensures -(CountLines(lines, IsRemovedLine) as int) <= LinesDelta(lines) <= CountLines(lines, IsAddedLine)
  {
    if lines != [] {
      DeltaBounds(lines[..|lines| - 1]);
    }
  }

  /** The counts are additive over concatenated line lists. */
  lemma {:induction false} CountsAdditive(a: seq<string>, b: seq<string>)
    ensures AddedTests(a + b) == AddedTests(a) + AddedTests(b)
    ensures RemovedTests(a + b) == RemovedTests(a) + RemovedTests(b)
    decreases |b|
  {
    if b == [] {
      assert a + b == a;
    } else {
      var b' := b[..|b| - 1];
      assert (a + b)[..|a + b| - 1] == a + b';
      assert (a + b)[|a + b| - 1] == b[|b| - 1];
      CountsAdditive(a, b');
    }
  }

  /** The delta of a diff made of two line lists is the sum of their deltas. */
  lemma DiffDeltaAdditive(a: seq<string>, b: seq<string>)
    requires NoNewlines(a) && NoNewlines(b)
    ensures DiffDelta(Unlines(a + b)) == DiffDelta(Unlines(a)) + DiffDelta(Unlines(b))
  {
    SplitUnlines(a);
    SplitUnlines(b);
    SplitUnlines(a + b);
    CountsAdditive(a, b);
  }

  /** A line that is neither an added nor a removed line: a `+++`/`---` file
      header, a context line, a hunk header or an empty line. */
  predicate Neutral(line: string) {
    StartsWith(line, "+++") || StartsWith(line, "---") ||
    line == [] || (line[0] != '+' && line[0] != '-')
  }

  /** Inserting a neutral line anywhere leaves the delta unchanged. */
  lemma NeutralLineInvisible(a: seq<string>, line: string, b: seq<string>)
    requires Neutral(line)
    ensures LinesDelta(a + [line] + b) == LinesDelta(a + b)
  {
    CountsAdditive(a + [line], b);
    CountsAdditive(a, [line]);
    CountsAdditive(a, b);
    assert [line][..0] == [];
  }

  /** A diff made only of neutral lines, such as the empty diff or a lone
      `+++ b/file` header, has delta 0. */
  lemma {:induction false} NeutralDiffIsZero(lines: seq<string>)
    requires forall j :: 0 <= j < |lines| ==> Neutral(lines[j])
    ensures LinesDelta(lines) == 0
  {
    if lines != [] {
      NeutralDiffIsZero(lines[..|lines| - 1]);
    }
  }

  /** A line `<sign>test(<x>)` carries one test call, counted on the side
      its sign selects. */
  lemma SimpleCallCounts(sign: char, x: char)
    requires sign == '+' || sign == '-'
    ensures var line := [sign, 't', 'e', 's', 't', '(', x, ')'];
      AddedBy(line) == (if sign == '+' then 1 else 0) &&
      RemovedBy(line) == (if sign == '-' then 1 else 0)
  {
    var line := [sign, 't', 'e', 's', 't', '(', x, ')'];
    assert line[1..5] == "test";
    assert CallFollows(line, 5);
    assert TestCallFrom(line, 1);
    assert PatternCount(sign, line) == 1;
    assert line[..3][2] == 'e';
    assert !StartsWith(line, "+++") && !StartsWith(line, "---");
  }

  lemma UnlinesThree(x: string, y: string, z: string)
    ensures Unlines([x, y, z]) == x + "\n" + y + "\n" + z + "\n"
  {
    assert [x, y, z][1..] == [y, z];
    assert [y, z][1..] == [z];
    assert [z][1..] == [];
    assert Unlines([z]) == z + "\n";
    assert Unlines([y, z]) == y + "\n" + (z + "\n");
  }

  lemma ExampleLinesDelta()
    ensures LinesDelta(["+test(a)", "+test(b)", "-test(c)"]) == 1
  {
    var x, y, z := "+test(a)", "+test(b)", "-test(c)";
    SimpleCallCounts('+', 'a');
    SimpleCallCounts('+', 'b');
    SimpleCallCounts('-', 'c');
    assert AddedBy(x) == 1 && RemovedBy(x) == 0;
    assert AddedBy(y) == 1 && RemovedBy(y) == 0;
    assert AddedBy(z) == 0 && RemovedBy(z) == 1;
    var lines := [x, y, z];
    assert lines[..2] == [x, y] && [x, y][..1] == [x] && [x][..0] == [];
    assert AddedTests([x]) == 1 && RemovedTests([x]) == 0;
    assert AddedTests([x, y]) == 2 && RemovedTests([x, y]) == 0;
    assert AddedTests(lines) == 2 && RemovedTests(lines) == 1;
  }

  /** Two added test calls and one removed one give a delta of 1. */
  lemma ExampleDelta()
    ensures DiffDelta("+test(a)\n+test(b)\n-test(c)\n") == 1
  {
    var x, y, z := "+test(a)", "+test(b)", "-test(c)";
    UnlinesThree(x, y, z);
    assert x + "\n" + y + "\n" + z + "\n" == "+test(a)\n+test(b)\n-test(c)\n";
    var lines := [x, y, z];
    SplitUnlines(lines);
    assert SplitLines("+test(a)\n+test(b)\n-test(c)\n") == lines;
    ExampleLinesDelta();
  }

  /** `latest(` has a word character before `test`, so it is not counted. */
  lemma LatestIsNotATestCall()
    ensures AddedBy("+latest(x)") == 0
  {
    var line := "+latest(x)";
    assert !TestCallFrom(line, 7);
    assert !TestCallFrom(line, 6);
    assert !TestCallFrom(line, 5);
    assert !TestCallFrom(line, 4);
    assert line[3..7] == "test" && IsWordChar(line[2]);
    assert !TestCallFrom(line, 3);
    assert !TestCallFrom(line, 2);
    assert !TestCallFrom(line, 1);
  }
}
