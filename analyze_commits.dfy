/** The commit/PR aggregator (`analyze_commits_and_prs`). The network fetches
    are replaced by their results: the commit list of the window, the diff
    text of each commit that is scanned, the closed pull requests, and the
    commit list of each of those pull requests. */
module AnalyzeCommits {
  import opened GitHubData
  import ContentUtils

  // ---------------------------------------------------------------------
  // Author identity and the reference totals
  // ---------------------------------------------------------------------

  /** `get_author_identifier`: the account login when the commit is linked to
      an account, otherwise the git author name. */
  function AuthorIdentifier(c: Commit): string {
    if c.account.Some? then c.account.value.login else c.gitAuthorName
  }

  /** The account login decides when the commit is linked to an account, and
      the git author name is then ignored; otherwise the git author name is
      the identifier. */
  lemma AuthorIdentifierRule(c: Commit, otherName: string)
    ensures c.account.Some? ==>
      AuthorIdentifier(c) == c.account.value.login &&
      AuthorIdentifier(c.(gitAuthorName := otherName)) == AuthorIdentifier(c)
    ensures c.account.None? ==> AuthorIdentifier(c) == c.gitAuthorName
  {
  }

  /** A commit whose diff is scanned: exactly one parent and a non-empty
      author identifier. */
  predicate Scanned(c: Commit) {
    |c.parents| == 1 && AuthorIdentifier(c) != ""
  }

  /** The fetched diffs cover every commit the loop scans. */
  predicate DiffsFetched(commits: seq<Commit>, diffs: map<string, string>) {
    forall c :: c in commits && Scanned(c) ==> c.sha in diffs
  }

  /** The fetched PR commit lists cover every closed PR. */
  predicate PrCommitsFetched(prs: seq<PullRequest>, prCommits: map<int, seq<Commit>>) {
    forall pr :: pr in prs ==> pr.number in prCommits
  }

  /** The authors credited with test totals: keys of `user_test_count`. */
  function TestAuthors(commits: seq<Commit>): set<string> {
    set c | c in commits && Scanned(c) :: AuthorIdentifier(c)
  }

  /** The sum of the diff deltas of the scanned commits attributed to `a`. */
  function TestSum(commits: seq<Commit>, diffs: map<string, string>, a: string): int
    requires DiffsFetched(commits, diffs)
  {
    if commits == [] then 0
    else
      var c := commits[|commits| - 1];
      TestSum(commits[..|commits| - 1], diffs, a) +
      (if Scanned(c) && AuthorIdentifier(c) == a then ContentUtils.DiffDelta(diffs[c.sha]) else 0)
  }

  /** The distinct non-empty author identifiers among a PR's commits. */
  function PrAuthorSet(commits: seq<Commit>): set<string> {
    set c | c in commits && AuthorIdentifier(c) != "" :: AuthorIdentifier(c)
  }

  /** The authors credited with at least one PR: keys of `user_pr_count`. */
  function PrAuthors(prs: seq<PullRequest>, prCommits: map<int, seq<Commit>>): set<string>
    requires PrCommitsFetched(prs, prCommits)
  {
    set a, pr | pr in prs && a in PrAuthorSet(prCommits[pr.number]) :: a
  }

  /** The number of PRs, in list order, among whose commits `a` is an author. */
  function PrsCrediting(prs: seq<PullRequest>, prCommits: map<int, seq<Commit>>, a: string): nat
    requires PrCommitsFetched(prs, prCommits)
  {
    if prs == [] then 0
    else
      var pr := prs[|prs| - 1];
      PrsCrediting(prs[..|prs| - 1], prCommits, a) +
      (if a in PrAuthorSet(prCommits[pr.number]) then 1 else 0)
  }

  /** One more commit: its author joins the key set, and its delta joins that
      author's sum, exactly when it is scanned. */
  lemma TestStep(commits: seq<Commit>, diffs: map<string, string>, c: Commit)
    requires DiffsFetched(commits + [c], diffs)
    ensures DiffsFetched(commits, diffs)
    ensures TestAuthors(commits + [c]) ==
      TestAuthors(commits) + (if Scanned(c) then {AuthorIdentifier(c)} else {})
    ensures forall a :: (TestSum(commits + [c], diffs, a) ==
      TestSum(commits, diffs, a) +
      (if Scanned(c) && AuthorIdentifier(c) == a then ContentUtils.DiffDelta(diffs[c.sha]) else 0))
  {
    assert (commits + [c])[..|commits|] == commits;
    forall x | x in commits ensures x in commits + [c] { }
  }

  /** One more PR: its distinct authors join the key set and gain one each. */
  lemma PrStep(prs: seq<PullRequest>, prCommits: map<int, seq<Commit>>, pr: PullRequest)
    requires PrCommitsFetched(prs + [pr], prCommits)
    ensures PrCommitsFetched(prs, prCommits)
    ensures PrAuthors(prs + [pr], prCommits) ==
      PrAuthors(prs, prCommits) + PrAuthorSet(prCommits[pr.number])
    ensures forall a :: (PrsCrediting(prs + [pr], prCommits, a) ==
      PrsCrediting(prs, prCommits, a) + (if a in PrAuthorSet(prCommits[pr.number]) then 1 else 0))
  {
    assert (prs + [pr])[..|prs|] == prs;
    forall x | x in prs ensures x in prs + [pr] { }
    var all := prs + [pr];
    forall a | a in PrAuthors(all, prCommits)
      ensures a in PrAuthors(prs, prCommits) + PrAuthorSet(prCommits[pr.number])
    {
      var q :| q in all && a in PrAuthorSet(prCommits[q.number]);
      if q != pr {
        assert q in prs;
      }
    }
  }

  /** An author without scanned commits has a test sum of 0, which is what
      the default of the counter map says. */
  lemma {:induction false} TestSumOfNonAuthor(commits: seq<Commit>, diffs: map<string, string>, a: string)
    requires DiffsFetched(commits, diffs)
    requires a !in TestAuthors(commits)
    ensures TestSum(commits, diffs, a) == 0
  {
    if commits != [] {
      var c := commits[|commits| - 1];
      TestStep(commits[..|commits| - 1], diffs, c);
      assert commits[..|commits| - 1] + [c] == commits;
      TestSumOfNonAuthor(commits[..|commits| - 1], diffs, a);
    }
  }

  /** Every credited author was credited by at least one PR and by at most
      all of them; anyone else by none. */
  lemma {:induction false} PrCountBounds(prs: seq<PullRequest>, prCommits: map<int, seq<Commit>>, a: string)
    requires PrCommitsFetched(prs, prCommits)
    ensures a in PrAuthors(prs, prCommits) ==> 1 <= PrsCrediting(prs, prCommits, a) <= |prs|
    ensures a !in PrAuthors(prs, prCommits) ==> PrsCrediting(prs, prCommits, a) == 0
  {
    if prs != [] {
      var pr := prs[|prs| - 1];
      PrStep(prs[..|prs| - 1], prCommits, pr);
      assert prs[..|prs| - 1] + [pr] == prs;
      PrCountBounds(prs[..|prs| - 1], prCommits, a);
    }
  }

  /** The test-count map as a value: one entry per credited author. */
  function TestCounts(commits: seq<Commit>, diffs: map<string, string>): map<string, int>
    requires DiffsFetched(commits, diffs)
  {
    map a | a in TestAuthors(commits) :: TestSum(commits, diffs, a)
  }

  /** The PR-count map as a value: one entry per credited author. */
  function PrCounts(prs: seq<PullRequest>, prCommits: map<int, seq<Commit>>): map<string, int>
    requires PrCommitsFetched(prs, prCommits)
  {
    map a | a in PrAuthors(prs, prCommits) :: PrsCrediting(prs, prCommits, a)
  }

  // ---------------------------------------------------------------------
  // The aggregator
  // ---------------------------------------------------------------------

  /** `analyze_commit`: look up the commit's diff and scan it. */
  method AnalyzeCommit(sha: string, diffs: map<string, string>) returns (change: int)
    requires sha in diffs
    ensures change == ContentUtils.DiffDelta(diffs[sha])
  {
    change := ContentUtils.CountTestsInDiff(diffs[sha]);
  }

  /** The `unique_authors` set built for one PR. */
  method UniqueAuthors(commits: seq<Commit>) returns (authors: set<string>)
    ensures authors == PrAuthorSet(commits)
  {
    authors := {};
    for j := 0 to |commits|
      invariant authors == PrAuthorSet(commits[..j])
    {
      var author := AuthorIdentifier(commits[j]);
      if author != "" {
        authors := authors + {author};
      }
      assert commits[..j + 1] == commits[..j] + [commits[j]];
    }
    assert commits[..|commits|] == commits;
  }

  /** Add 1 to the PR count of each author in the set, starting from 0 for an
      author not yet counted. */
  method CreditAuthors(counts: map<string, int>, authors: set<string>) returns (updated: map<string, int>)
    ensures updated.Keys == counts.Keys + authors
    ensures forall a :: a in updated ==> updated[a] == CountOf(counts, a) + (if a in authors then 1 else 0)
  {
    updated := counts;
    var pending := authors;
    while pending != {}
      invariant pending <= authors
      invariant updated.Keys == counts.Keys + (authors - pending)
      invariant forall a :: a in updated ==>
        updated[a] == CountOf(counts, a) + (if a in authors - pending then 1 else 0)
      decreases pending
    {
      var a :| a in pending;
      updated := updated[a := CountOf(updated, a) + 1];
      pending := pending - {a};
    }
  }

  /** The first loop of `analyze_commits_and_prs`: add each scanned commit's
      diff delta to its author's total. */
  method TallyTests(commits: seq<Commit>, diffs: map<string, string>)
    returns (userTestCount: map<string, int>)
    requires DiffsFetched(commits, diffs)
    ensures userTestCount.Keys == TestAuthors(commits)
    ensures forall a :: a in userTestCount ==> userTestCount[a] == TestSum(commits, diffs, a)
  {
    userTestCount := map[];
    for i := 0 to |commits|
      invariant DiffsFetched(commits[..i], diffs)
      invariant userTestCount.Keys == TestAuthors(commits[..i])
      invariant forall a :: a in userTestCount ==> userTestCount[a] == TestSum(commits[..i], diffs, a)
    {
      var commit := commits[i];
      assert commits[..i + 1] == commits[..i] + [commit];
      TestStep(commits[..i], diffs, commit);
      if |commit.parents| == 1 {
        var author := AuthorIdentifier(commit);
        if author != "" {
          var change := AnalyzeCommit(commit.sha, diffs);
          if author !in userTestCount {
            TestSumOfNonAuthor(commits[..i], diffs, author);
          }
          userTestCount := userTestCount[author := CountOf(userTestCount, author) + change];
        }
      }
    }
    assert commits[..|commits|] == commits;
  }

  /** The second loop of `analyze_commits_and_prs`: credit each distinct
      author of each closed PR once. */
  method TallyPrs(prs: seq<PullRequest>, prCommits: map<int, seq<Commit>>)
    returns (userPrCount: map<string, int>)
    requires PrCommitsFetched(prs, prCommits)
    ensures userPrCount.Keys == PrAuthors(prs, prCommits)
    ensures forall a :: a in userPrCount ==> userPrCount[a] == PrsCrediting(prs, prCommits, a)
  {
    userPrCount := map[];
    for i := 0 to |prs|
      invariant PrCommitsFetched(prs[..i], prCommits)
      invariant userPrCount.Keys == PrAuthors(prs[..i], prCommits)
      invariant forall a :: a in userPrCount ==> userPrCount[a] == PrsCrediting(prs[..i], prCommits, a)
    {
      var pr := prs[i];
      assert prs[..i + 1] == prs[..i] + [pr];
      PrStep(prs[..i], prCommits, pr);
      var commitsInPr := prCommits[pr.number];
      var uniqueAuthors := UniqueAuthors(commitsInPr);
      userPrCount := CreditAuthors(userPrCount, uniqueAuthors);
      forall a | a in userPrCount
        ensures userPrCount[a] == PrsCrediting(prs[..i + 1], prCommits, a)
      {
        PrCountBounds(prs[..i], prCommits, a);
      }
    }
    assert prs[..|prs|] == prs;
  }

  /** `analyze_commits_and_prs`: the per-author test totals over scanned
      commits, and the per-author number of closed PRs contributed to. */
  method AnalyzeCommitsAndPrs(
    commits: seq<Commit>, diffs: map<string, string>,
    prs: seq<PullRequest>, prCommits: map<int, seq<Commit>>)
    returns (userTestCount: map<string, int>, userPrCount: map<string, int>)
    requires DiffsFetched(commits, diffs)
    requires PrCommitsFetched(prs, prCommits)
    ensures userTestCount == TestCounts(commits, diffs)
    ensures userPrCount == PrCounts(prs, prCommits)
  {
    userTestCount := TallyTests(commits, diffs);
    userPrCount := TallyPrs(prs, prCommits);
    MapOfKeysAndValues(userTestCount, TestAuthors(commits), a => TestSum(commits, diffs, a));
    MapOfKeysAndValues(userPrCount, PrAuthors(prs, prCommits), a => PrsCrediting(prs, prCommits, a));
  }

  lemma MapOfKeysAndValues(m: map<string, int>, keys: set<string>, value: string -> int)
    requires m.Keys == keys
    requires forall a :: a in m ==> m[a] == value(a)
    ensures m == map a | a in keys :: value(a)
  {
  }

  // ---------------------------------------------------------------------
  // Properties of the totals
  // ---------------------------------------------------------------------

  lemma {:induction false} TestSumAppend(xs: seq<Commit>, ys: seq<Commit>, diffs: map<string, string>, a: string)
    requires DiffsFetched(xs + ys, diffs)
    ensures DiffsFetched(xs, diffs) && DiffsFetched(ys, diffs)
    ensures TestAuthors(xs + ys) == TestAuthors(xs) + TestAuthors(ys)
    ensures TestSum(xs + ys, diffs, a) == TestSum(xs, diffs, a) + TestSum(ys, diffs, a)
    decreases |ys|
  {
    if ys == [] {
      assert xs + ys == xs;
    } else {
      var c := ys[|ys| - 1];
      var ys' := ys[..|ys| - 1];
      assert xs + ys == (xs + ys') + [c];
      assert ys == ys' + [c];
      TestStep(xs + ys', diffs, c);
      TestSumAppend(xs, ys', diffs, a);
      TestStep(ys', diffs, c);
    }
  }

  /** A commit that is not scanned (a root or merge commit, or one without an
      author identifier) changes neither the set of credited authors nor any
      author's test total, wherever it stands in the list. */
  lemma UnscannedCommitIsInvisible(xs: seq<Commit>, c: Commit, ys: seq<Commit>, diffs: map<string, string>)
    requires |c.parents| != 1 || AuthorIdentifier(c) == ""
    requires DiffsFetched(xs + [c] + ys, diffs)
    ensures DiffsFetched(xs + ys, diffs)
    ensures TestAuthors(xs + [c] + ys) == TestAuthors(xs + ys)
    ensures forall a :: TestSum(xs + [c] + ys, diffs, a) == TestSum(xs + ys, diffs, a)
  {
    forall a ensures TestSum(xs + [c] + ys, diffs, a) == TestSum(xs + ys, diffs, a) {
      TestSumAppend(xs + [c], ys, diffs, a);
      TestSumAppend(xs, [c], diffs, a);
      assert [c][..0] == [];
      forall x | x in xs + ys ensures x in xs + [c] + ys { }
      TestSumAppend(xs, ys, diffs, a);
    }
  }

  /** A commit whose author identifier is empty or already present adds no
      PR credit: each PR credits each distinct author once, however many
      commits they made in it. */
  lemma RepeatedOrAnonymousAuthorAddsNoCredit(commits: seq<Commit>, c: Commit)
    requires AuthorIdentifier(c) == "" || AuthorIdentifier(c) in PrAuthorSet(commits)
    ensures PrAuthorSet(commits + [c]) == PrAuthorSet(commits)
  {
    forall a | a in PrAuthorSet(commits + [c]) ensures a in PrAuthorSet(commits) {
      var x :| x in commits + [c] && AuthorIdentifier(x) != "" && AuthorIdentifier(x) == a;
      if x != c {
        assert x in commits;
      }
    }
    forall a | a in PrAuthorSet(commits) ensures a in PrAuthorSet(commits + [c]) {
      var x :| x in commits && AuthorIdentifier(x) != "" && AuthorIdentifier(x) == a;
      assert x in commits + [c];
    }
  }

  /** PR crediting reads only the PR numbers: `merged_at` is never consulted,
      so a closed PR that was not merged is credited like a merged one. */
  lemma {:induction false} PrCreditIgnoresMergedAt(
    prs1: seq<PullRequest>, prs2: seq<PullRequest>, prCommits: map<int, seq<Commit>>, a: string)
    requires |prs1| == |prs2|
    requires forall i :: 0 <= i < |prs1| ==> prs1[i].number == prs2[i].number
    requires PrCommitsFetched(prs1, prCommits)
    ensures PrCommitsFetched(prs2, prCommits)
    ensures PrAuthors(prs1, prCommits) == PrAuthors(prs2, prCommits)
    ensures PrsCrediting(prs1, prCommits, a) == PrsCrediting(prs2, prCommits, a)
  {
    forall pr | pr in prs2 ensures pr.number in prCommits {
      var i :| 0 <= i < |prs2| && prs2[i] == pr;
      assert prs1[i] in prs1;
    }
    if prs1 != [] {
      var n := |prs1| - 1;
      assert prs1 == prs1[..n] + [prs1[n]];
      assert prs2 == prs2[..n] + [prs2[n]];
      PrStep(prs1[..n], prCommits, prs1[n]);
      PrStep(prs2[..n], prCommits, prs2[n]);
      PrCreditIgnoresMergedAt(prs1[..n], prs2[..n], prCommits, a);
    }
  }

  /** A PR with three commits by one author and one by another credits each
      of them exactly once. */
  lemma OneCreditPerAuthorPerPr(pr: PullRequest, prCommits: map<int, seq<Commit>>,
                                x1: Commit, x2: Commit, x3: Commit, y: Commit)
    requires pr.number in prCommits && prCommits[pr.number] == [x1, x2, x3, y]
    requires AuthorIdentifier(x1) == AuthorIdentifier(x2) == AuthorIdentifier(x3) != ""
    requires AuthorIdentifier(y) != "" && AuthorIdentifier(y) != AuthorIdentifier(x1)
    ensures PrAuthors([pr], prCommits) == {AuthorIdentifier(x1), AuthorIdentifier(y)}
    ensures PrsCrediting([pr], prCommits, AuthorIdentifier(x1)) == 1
    ensures PrsCrediting([pr], prCommits, AuthorIdentifier(y)) == 1
  {
    var cs := [x1, x2, x3, y];
    assert x1 in cs && y in cs;
    assert PrAuthorSet(cs) == {AuthorIdentifier(x1), AuthorIdentifier(y)};
    PrStep([], prCommits, pr);
    assert [] + [pr] == [pr];
    assert PrAuthors([], prCommits) == {};
  }
}
