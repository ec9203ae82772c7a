/** The report builder (`generate_report`): one row per author found in
    either count map, and the file name derived from the window. */
module GenerateReport {
  import opened GitHubData
  import ContentUtils
  import AnalyzeCommits

  /** One report row: user, net tests added, PRs contributed to. */
  datatype Row = Row(user: string, testsAdded: int, prsContributed: int)

  /** The users of a list of rows. */
  function RowUsers(rows: seq<Row>): set<string> {
    set r | r in rows :: r.user
  }

  predicate DistinctUsers(rows: seq<Row>) {
    forall i, j :: 0 <= i < j < |rows| ==> rows[i].user != rows[j].user
  }

  /** `rows` is a report of the two count maps: exactly one row per user of
      either map, each with its counts, 0 standing for a missing entry. */
  predicate ReportRowsFor(testCount: map<string, int>, prCount: map<string, int>, rows: seq<Row>) {
    RowUsers(rows) == testCount.Keys + prCount.Keys &&
    DistinctUsers(rows) &&
    |rows| == |testCount.Keys + prCount.Keys| &&
    forall r :: r in rows ==>
      r.testsAdded == CountOf(testCount, r.user) && r.prsContributed == CountOf(prCount, r.user)
  }

  lemma RowStep(rows: seq<Row>, row: Row)
    ensures RowUsers(rows + [row]) == RowUsers(rows) + {row.user}
    ensures DistinctUsers(rows) && row.user !in RowUsers(rows) ==> DistinctUsers(rows + [row])
    ensures forall r :: r in rows + [row] ==> r in rows || r == row
  {
    if DistinctUsers(rows) && row.user !in RowUsers(rows) {
      forall i, j | 0 <= i < j < |rows| + 1 ensures (rows + [row])[i].user != (rows + [row])[j].user {
        if j == |rows| {
          assert rows[i] in rows;
        }
      }
    }
  }

  /** The row-building loop over the union of the two key sets; the order in
      which the set is walked is not specified. */
  method BuildRows(testCount: map<string, int>, prCount: map<string, int>) returns (rows: seq<Row>)
    ensures ReportRowsFor(testCount, prCount, rows)
  {
    var users := testCount.Keys + prCount.Keys;
    rows := [];
    var pending := users;
    while pending != {}
      invariant pending <= users
      invariant RowUsers(rows) == users - pending
      invariant DistinctUsers(rows)
      invariant |rows| == |users - pending|
      invariant forall r :: r in rows ==>
        r.testsAdded == CountOf(testCount, r.user) && r.prsContributed == CountOf(prCount, r.user)
      decreases pending
    {
      var user :| user in pending;
      var testsAdded := CountOf(testCount, user);
      var prsMerged := CountOf(prCount, user);
      assert users - (pending - {user}) == (users - pending) + {user};
      assert user !in users - pending;
      RowStep(rows, Row(user, testsAdded, prsMerged));
      rows := rows + [Row(user, testsAdded, prsMerged)];
      pending := pending - {user};
    }
  }

  /** `Report(<start> - <end>).csv`. */
  function ReportFileName(startStr: string, endStr: string): string {
    "Report(" + startStr + " - " + endStr + ").csv"
  }

  /** The file name joined under the `Reports` directory. */
  function ReportPath(startStr: string, endStr: string): string {
    "Reports/" + ReportFileName(startStr, endStr)
  }

  /** Windows whose start dates are formatted to the same width (as
      `dd-mm-yyyy` always is) get the same path only if they are the same
      window: the path names the window. */
  lemma ReportPathNamesWindow(s1: string, e1: string, s2: string, e2: string)
    requires |s1| == |s2|
    requires ReportPath(s1, e1) == ReportPath(s2, e2)
    ensures s1 == s2 && e1 == e2
  {
    var p1, p2 := ReportPath(s1, e1), ReportPath(s2, e2);
    assert p1 == "Reports/Report(" + s1 + " - " + e1 + ").csv";
    assert p2 == "Reports/Report(" + s2 + " - " + e2 + ").csv";
    assert p1[15..15 + |s1|] == s1;
    assert p2[15..15 + |s2|] == s2;
    assert |e1| == |e2|;
    assert p1[18 + |s1|..18 + |s1| + |e1|] == e1;
    assert p2[18 + |s2|..18 + |s2| + |e2|] == e2;
  }

  /** `generate_report` without the CSV writing: aggregate, build the rows,
      and name the file. */
  method GenerateReport(
    commits: seq<Commit>, diffs: map<string, string>,
    prs: seq<PullRequest>, prCommits: map<int, seq<Commit>>,
    startStr: string, endStr: string)
    returns (filePath: string, rows: seq<Row>)
    requires AnalyzeCommits.DiffsFetched(commits, diffs)
    requires AnalyzeCommits.PrCommitsFetched(prs, prCommits)
    ensures filePath == ReportPath(startStr, endStr)
    ensures ReportRowsFor(AnalyzeCommits.TestCounts(commits, diffs), AnalyzeCommits.PrCounts(prs, prCommits), rows)
  {
    var userTestCount, userPrCount := AnalyzeCommits.AnalyzeCommitsAndPrs(commits, diffs, prs, prCommits);
    rows := BuildRows(userTestCount, userPrCount);
    filePath := ReportPath(startStr, endStr);
  }

  lemma AliceTestCounts(c: Commit, diffs: map<string, string>)
    requires |c.parents| == 1 && c.account == Some(Account("alice"))
    requires c.sha in diffs && diffs[c.sha] == "+test(x)\n"
    ensures AnalyzeCommits.DiffsFetched([c], diffs)
    ensures AnalyzeCommits.TestCounts([c], diffs) == map["alice" := 1]
  {
    ContentUtils.SimpleCallCounts('+', 'x');
    ContentUtils.SplitUnlines(["+test(x)"]);
    assert ContentUtils.Unlines(["+test(x)"]) == "+test(x)\n";
    assert ContentUtils.DiffDelta("+test(x)\n") == 1 by {
      assert ["+test(x)"][..0] == [];
    }
    assert AnalyzeCommits.AuthorIdentifier(c) == "alice" && AnalyzeCommits.Scanned(c);
    assert c in [c];
    assert AnalyzeCommits.TestAuthors([c]) == {"alice"};
    assert [c][..0] == [];
    assert AnalyzeCommits.TestSum([c], diffs, "alice") == 1;
  }

  lemma AlicePrCounts(c: Commit, pr: PullRequest, prCommits: map<int, seq<Commit>>)
    requires c.account == Some(Account("alice"))
    requires pr.number in prCommits && prCommits[pr.number] == [c]
    ensures AnalyzeCommits.PrCommitsFetched([pr], prCommits)
    ensures AnalyzeCommits.PrCounts([pr], prCommits) == map["alice" := 1]
  {
    assert AnalyzeCommits.AuthorIdentifier(c) == "alice";
    assert c in [c];
    assert AnalyzeCommits.PrAuthorSet([c]) == {"alice"};
    AnalyzeCommits.PrStep([], prCommits, pr);
    assert [] + [pr] == [pr];
    assert AnalyzeCommits.PrAuthors([], prCommits) == {};
  }

  /** One single-parent commit by `alice` that adds `test(x)`, and one closed
      PR holding that commit, give the single row (alice, 1, 1). */
  lemma AliceExample(c: Commit, diffs: map<string, string>, pr: PullRequest,
                     prCommits: map<int, seq<Commit>>, rows: seq<Row>)
    requires |c.parents| == 1 && c.account == Some(Account("alice"))
    requires c.sha in diffs && diffs[c.sha] == "+test(x)\n"
    requires pr.number in prCommits && prCommits[pr.number] == [c]
    requires ReportRowsFor(AnalyzeCommits.TestCounts([c], diffs), AnalyzeCommits.PrCounts([pr], prCommits), rows)
    ensures rows == [Row("alice", 1, 1)]
  {
    AliceTestCounts(c, diffs);
    AlicePrCounts(c, pr, prCommits);
    var keys := map["alice" := 1].Keys + map["alice" := 1].Keys;
    assert keys == {"alice"};
    assert |rows| == 1;
    assert rows[0] in rows;
    assert rows[0].user in RowUsers(rows);
  }
}
