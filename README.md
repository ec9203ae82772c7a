# Contributor test-activity report — a Dafny model

The system produces a per-contributor report for one repository over a date
window. For each author it gives:

- the net number of `test(`-like calls their single-parent commits added;
- the number of closed pull requests they committed to.

A web endpoint (`GET /generate_report`) chooses and checks the window. It then
runs the aggregation, writes the report file and sends a text table of the rows
to a chat channel.

This project models the sequential logic of that pipeline. Every network fetch
is replaced by data given as input.

| module | file | models |
|---|---|---|
| `GitHubData` | github_data.dfy | commits, pull requests, the outcome of one HTTP request, Python truthiness, counter maps read with a default of 0 |
| `ContentUtils` | content_utils.dfy | `count_tests_in_diff`: line splitting, `+`/`-` classification, the anchored per-line pattern, the counting loop |
| `GithubApi` | github_api.dfy | the page-accumulation loop of the three listing fetches, the requests they issue, `filter_merged_prs` |
| `AnalyzeCommits` | analyze_commits.dfy | `analyze_commits_and_prs` with `get_author_identifier` and `analyze_commit` |
| `GenerateReport` | generate_report.dfy | `generate_report`: key union, one row per user with 0 defaults, the report path |
| `ReportEndpoint` | report_endpoint.dfy | `generate_report_endpoint`: default window, the ladder of date checks, 403→429 / other→500, the fixed-width table |

How the model is built:

- **Reference functions and loops.** Each loop of the source is a `method` with
  loop invariants. It is proved equal to a reference function:
  - `CountTestsInDiff` is proved against `AddedTests`/`RemovedTests`;
  - `FetchAllPages` against `Paginated`;
  - `TallyTests`/`TallyPrs` against `TestCounts`/`PrCounts`;
  - `BuildRows` against `ReportRowsFor`;
  - `ReportTable` against `TableHeader() + TableBody(rows)`.

  The properties the source promises are then proved about those functions as
  lemmas.
- **The network.** A listing is an oracle `api: Request -> Fetch<seq<T>>`. The
  model records the exact requests issued: query parameters and page numbers.
- **The aggregator's inputs.** It receives the fetched commit list, the diff
  text of each commit, the closed PRs, and each PR's commit list.
- **The endpoint.** Dates are instants in seconds, and `now` is one clock
  reading. `strptime` is an oracle `parse: string -> Option<int>` (None stands
  for `ValueError`), and `strftime` is an oracle `format`. `generate_report`
  with its network access is an oracle that returns the report path or the
  status of the `HTTPStatusError` it raised.

Behaviour of the code that the model keeps:

- **No "unknown" author.** A commit whose author identifier is empty is skipped
  and credits nobody (`Scanned`, `PrAuthorSet`).
- **No merged-only filter.** Every closed pull request credits its authors;
  `merged_at` is never read by the aggregator (`PrCreditIgnoresMergedAt`).
  `filter_merged_prs` exists but nothing calls it.
- **One match per line.** The regex is anchored with `^` and applied to one line
  at a time, so a line contributes 0 or 1 however many calls it holds.
- **`latest(` does not match.** `\btest` needs a non-word character before
  `t` (`LatestIsNotATestCall`).

## Model

| member | source | states |
|---|---|---|
| `ContentUtils.SplitLines` | utils/content_utils.py:15 | no line of the split diff holds a newline, and the empty diff, and only it, has no lines |
| `ContentUtils.SplitUnlines` | utils/content_utils.py:15 | splitting a text made of newline-free lines, each ended by a newline, gives back exactly those lines |
| `ContentUtils.UnlinesSplit` | utils/content_utils.py:15 | a diff that is empty or ends in a newline is its own lines joined back with newlines, so splitting loses nothing |
| `ContentUtils.CallFollowsMeaning` | utils/content_utils.py:12-13 | the scan for `\s*\(` at index k succeeds iff some `(` lies at or after k with only whitespace before it |
| `ContentUtils.TestCallFromMeaning` | utils/content_utils.py:12-13 | the scan for `\btest\s*\(` from index i succeeds iff the regex matches at some index ≥ i: `test` preceded by a non-word character, then optional whitespace and `(` |
| `ContentUtils.PatternCount` | utils/content_utils.py:12-19 | `findall` of the anchored pattern on a single line finds at most one match: one exactly when the pattern matches the line, none otherwise |
| `ContentUtils.PatternMatchesIffScan` | utils/content_utils.py:12-13 | the anchored pattern matches a line exactly when the line starts with the sign and the executable scan finds `test` and a call from index 1 on |
| `ContentUtils.CountTestsInDiff` | utils/content_utils.py:8-21 | the loop returns the number of counted added lines minus the number of counted removed lines, over the lines of the diff |
| `ContentUtils.AddedLineCounts` | utils/content_utils.py:12-17 | an added line counts iff it holds `test` after a non-word character, then optional whitespace and `(`; it never counts as removed |
| `ContentUtils.RemovedLineCounts` | utils/content_utils.py:13-19 | a removed line counts iff the same pattern follows its `-`; it never counts as added |
| `ContentUtils.DeltaBounds` | utils/content_utils.py:12-21 | each line adds at most one, so −(#removed lines) ≤ result ≤ #added lines |
| `ContentUtils.CountsAdditive` | utils/content_utils.py:15-19 | both counters of a concatenation of line lists are the sums of their counters |
| `ContentUtils.DiffDeltaAdditive` | utils/content_utils.py:8-21 | the result for a diff made of two line lists is the sum of the results for each |
| `ContentUtils.NeutralLineInvisible` | utils/content_utils.py:16-19 | inserting a `+++` or `---` header, a context line, a hunk header or an empty line anywhere leaves the result unchanged |
| `ContentUtils.NeutralDiffIsZero` | utils/content_utils.py:15-21 | a diff of neutral lines only, the empty diff included, yields 0 |
| `ContentUtils.SimpleCallCounts` | utils/content_utils.py:12-19 | `+test(x)` counts one added test and no removed one; `-test(x)` the reverse |
| `ContentUtils.ExampleDelta` | utils/content_utils.py:8-21 | `"+test(a)\n+test(b)\n-test(c)\n"` yields 1 |
| `ContentUtils.LatestIsNotATestCall` | utils/content_utils.py:12 | `+latest(x)` is not counted: a word character precedes `test` |
| `GithubApi.FirstStop` | utils/github_api.py:42-54 | the loop ends on the first page that failed or came back empty; every earlier page was a non-empty success |
| `GithubApi.FetchAllPages` | utils/github_api.py:39-58 | the loop returns the error of the first stopping page, or else the items of all pages before the first empty one; it requests pages 1, 2, …, n in order, n being that stopping page, and none after it |
| `GithubApi.ErrorDiscardsPartialResult` | utils/github_api.py:43-51 | an error status on a page that is reached raises it, and none of the items already collected is returned |
| `GithubApi.SuccessIsConcatenation` | utils/github_api.py:52-56 | when every reached page succeeds, the result is the concatenation of pages 1 … n−1, n being the first empty page |
| `GithubApi.TwoFullPagesExample` | utils/github_api.py:52-56 | two pages of 100 items and then an empty page give 200 items, with exactly pages 1, 2 and 3 requested |
| `GithubApi.FetchCommitsFromGithub` | utils/github_api.py:25-58 | the commit listing is paginated as above; request i asks for branch `main`, 100 per page, page i, with the window's since/until |
| `GithubApi.FetchClosedPrs` | utils/github_api.py:61-92 | the PR listing is paginated as above; request i asks for state `closed`, sorted by `updated` `desc`, 100 per page, page i |
| `GithubApi.FetchCommitsInPr` | utils/github_api.py:102-125 | the commits of one PR are paginated as above; request i asks for that PR number, 100 per page, page i |
| `GithubApi.MergedOnly` | utils/github_api.py:94-99 | a PR is kept iff it is in the input and its `merged_at` is truthy, as many times as it occurs in the input; a PR without a truthy `merged_at` occurs 0 times; the output is no longer than the input |
| `GithubApi.FilterMergedPrs` | utils/github_api.py:94-99 | the appending loop returns exactly the merged PRs of the input |
| `GithubApi.MergedOnlyIsSubsequence` | utils/github_api.py:94-99 | the merged PRs keep their input order: the output is a subsequence of the input |
| `AnalyzeCommits.AnalyzeCommit` | src/analyze_commits.py:6-9 | a commit's test change is the scanner's result on that commit's diff |
| `AnalyzeCommits.AuthorIdentifierRule` | src/analyze_commits.py:16-19 | `AuthorIdentifier` is the account login when the commit is linked to an account, and the git author name is then ignored; otherwise it is the git author name |
| `AnalyzeCommits.TestStep` | src/analyze_commits.py:21-26 | one more commit adds its author to the keys, and its diff delta to that author's total, exactly when it has one parent and a non-empty author identifier |
| `AnalyzeCommits.PrStep` | src/analyze_commits.py:32-45 | one more PR adds its distinct authors to the keys and adds 1 to each of them and to nobody else |
| `AnalyzeCommits.TestSumOfNonAuthor` | src/analyze_commits.py:21-26 | an author with no scanned commit has total 0, the counter's default |
| `AnalyzeCommits.PrCountBounds` | src/analyze_commits.py:32-45 | every credited author has a PR count between 1 and the number of PRs fetched; anyone else has 0 |
| `AnalyzeCommits.UniqueAuthors` | src/analyze_commits.py:35-42 | the per-PR set holds exactly the non-empty author identifiers of the PR's commits |
| `AnalyzeCommits.CreditAuthors` | src/analyze_commits.py:44-45 | after crediting, the keys are the old keys plus the PR's authors, and each author of the PR has one more than before; every other count is unchanged |
| `AnalyzeCommits.TallyTests` | src/analyze_commits.py:21-28 | the test map's keys are the authors of scanned commits, and each total is the sum of that author's diff deltas |
| `AnalyzeCommits.TallyPrs` | src/analyze_commits.py:32-45 | the PR map's keys are the authors found in any PR, and each count is the number of PRs that author committed to |
| `AnalyzeCommits.AnalyzeCommitsAndPrs` | src/analyze_commits.py:11-47 | the two returned maps are the reference test totals and PR counts of the fetched data |
| `AnalyzeCommits.TestSumAppend` | src/analyze_commits.py:21-26 | the test keys and totals of a concatenated commit list are the union and the sums of those of its parts |
| `AnalyzeCommits.UnscannedCommitIsInvisible` | src/analyze_commits.py:21-28 | a root or merge commit, or one with an empty author identifier, changes neither the keys nor any total, wherever it stands |
| `AnalyzeCommits.RepeatedOrAnonymousAuthorAddsNoCredit` | src/analyze_commits.py:37-42 | a commit by an author already seen in the PR, or with an empty identifier, leaves the PR's author set unchanged |
| `AnalyzeCommits.PrCreditIgnoresMergedAt` | src/analyze_commits.py:30-34 | PR crediting depends only on the PR numbers: changing `merged_at` (merged or not) changes neither keys nor counts |
| `AnalyzeCommits.OneCreditPerAuthorPerPr` | src/analyze_commits.py:35-45 | a PR with three commits by A and one by B credits A once and B once |
| `GenerateReport.BuildRows` | src/generate_report.py:9-14 | the rows' users are exactly the union of both maps' keys, each user appears once, and each row holds that user's counts, 0 when absent |
| `GenerateReport.ReportPathNamesWindow` | src/generate_report.py:26-27 | `ReportPath`, the file name `Report(<start> - <end>).csv` joined under `Reports`, names the window: two windows whose start strings have the same width get the same path only when both date strings are equal |
| `GenerateReport.GenerateReport` | src/generate_report.py:6-31 | the path is `Reports/Report(<start> - <end>).csv` and the rows are the report of the aggregated maps |
| `GenerateReport.AliceExample` | src/generate_report.py:6-14 | one single-parent commit by alice adding `test(x)`, in one closed PR, gives the single row (alice, 1, 1) |
| `ReportEndpoint.ValidateWindow` | main.py:47-62 | each error of the ladder is returned exactly under its own condition, in the code's order of precedence; the window passes iff start ≤ end ≤ now |
| `ReportEndpoint.ResolveWindow` | main.py:36-68 | an accepted window satisfies start ≤ end ≤ now; every rejection is a 400 |
| `ReportEndpoint.DefaultWindowRule` | main.py:38-45 | `DefaultWindow` is what a request gets when either date string is missing or empty: the seven days ending now and both strings are the formatted defaults, so a lone supplied date is ignored |
| `ReportEndpoint.SuppliedWindowRule` | main.py:38-68 | with both dates supplied, a parse failure is the format 400; otherwise the parsed window is accepted with the supplied strings or rejected by the ladder |
| `ReportEndpoint.FailureResponse` | main.py:113-155 | status 403 becomes 429 "Rate limit exceeded"; any other status becomes 500 "Error generating report" |
| `ReportEndpoint.GenerateReportEndpoint` | main.py:32-158 | a success means the window was accepted and report generation returned that path |
| `ReportEndpoint.RejectedBeforeGeneration` | main.py:36-75 | a rejected window answers 400 without consulting report generation |
| `ReportEndpoint.AcceptedResponses` | main.py:71-158 | for an accepted window the answer is the path, 429 for a 403, or 500 for any other status |
| `ReportEndpoint.PadRight` | main.py:82 | a left-justified field is exactly the width, or the value's length when longer (no truncation) |
| `ReportEndpoint.PadRightShape` | main.py:82 | the field starts with the whole value and the rest of it is blanks |
| `ReportEndpoint.Digits` | main.py:82 | a count is rendered as at least one decimal digit and only digits |
| `ReportEndpoint.DigitsRoundTrip` | main.py:82 | reading the rendered digits back gives the count |
| `ReportEndpoint.DecimalRoundTrip` | main.py:82 | `Decimal` (`str` of a count) reads back to the count: the digits of a count ≥ 0, or `-` followed by the digits of its magnitude |
| `ReportEndpoint.DecimalHasNoBlank` | main.py:82 | a rendered count has no blank and no newline, so the padding after it is distinguishable |
| `ReportEndpoint.ColumnsLayout` | main.py:82 | a line's length is the sum of the widths (each field widened to fit its value) plus 2; with values that fit, the counts start at columns 21 and 34 and the line is 50 wide |
| `ReportEndpoint.RowLayout` | main.py:82 | `RowText`, the line of one row, is the user, then the tests, then the PRs, each rendered by `Decimal`, laid out as above |
| `ReportEndpoint.RowTextHasNoNewline` | main.py:82 | a row line holds no newline when the user name holds none |
| `ReportEndpoint.ReportTable` | main.py:76-82 | the table is the header line, the dash rule, then one formatted line per row in row order, each ended by a newline |
| `ReportEndpoint.TableLines` | main.py:76-82 | the table splits into exactly the header, the rule and the row lines, in row order |

## Left out

- HTTP client setup, URLs, headers and timeouts (utils/github_api.py:4-6, 10-14, 29-30, 62-63, 103-104). A listing is an oracle from a request to a page body or an error status. The `since`/`until` strings (`isoformat() + 'Z'`) are parameters.
- `fetch_commit_diff` (utils/github_api.py:9-22) is the `diffs` map: the aggregator receives the diff text of each commit it scans.
- AnalyzeCommits.AnalyzeCommitsAndPrs: requires that the `diffs` map covers every scanned commit and the PR-commit map covers every closed PR. In the source these are fetches that cannot be "missing"; a failing fetch raises, and that path is modelled only by the endpoint's `generate` oracle.
- GithubApi.FetchAllPages: requires a page number k on which the loop stops (an error or an empty page). Against an API that never returns an empty page, the source loops forever; the model does not cover that run.
- The tenacity `@retry` decorator (three attempts with exponential back-off, utils/github_api.py:8, 24, 60, 101) is timing and library behaviour. A retried fetch restarts from page 1; only a single attempt is modelled. tenacity's default wraps the last exception in its own `RetryError`, which the endpoint's `except httpx.HTTPStatusError` (main.py:113) would not catch. The model assumes the status reaches that handler, as the handler is written to expect.
- FastAPI, uvicorn and signal handling (main.py:19-31, 161-164) are left out.
- The Slack payloads and `send_slack_alert` (main.py:84-112, 116-154) are left out. `utils.slack_alert` is not part of this model. `ReportTable` builds the table text; its delivery is not modelled.
- The pandas DataFrame, `print(report)`, `os.makedirs` and the CSV file (src/generate_report.py:16-20, 29) are I/O. The rows are what the DataFrame holds. `os.path.join` is modelled with a `/` separator.
- `strptime`, `strftime` and `datetime.now()` are oracles. The source calls `datetime.now()` at five places and at most four times in one request; the model uses one reading. `timedelta(days=7)` is 7 × 86400 seconds.
- `GenerateReport.GenerateReport` receives the formatted date strings rather than formatting the dates itself.
- The `print` logging throughout is left out.
- `async`/`await`: the source awaits each call in turn, so the model is sequential.
- Python's Unicode `\w`, `\s` and `\b` are approximated by ASCII letters, digits and `_`, and by ASCII blank, tab, newline, carriage return, vertical tab and form feed.
- `str.splitlines` is approximated by splitting on `\n` only. Python also breaks lines at `\r`, `\r\n`, `\v`, `\f`, `\x1c`–`\x1e`, `\x85`, U+2028 and U+2029.
- A JSON `null` git author name is represented by the empty string. Both are falsy, so both commits are skipped the same way.
- Set iteration order: `BuildRows` and `CreditAuthors` walk their sets in an unspecified order. Row order is therefore not stated, as it is not fixed in the source.
- config.py (repository constants and environment loading) is not part of this model.
