/** The repository access client: the page-accumulation loop shared by
    `fetch_commits_from_github`, `fetch_closed_prs` and `fetch_commits_in_pr`,
    and `filter_merged_prs`. The HTTP layer is an oracle `page` that gives,
    for each page number, the decoded page body or the error status. */
module GithubApi {
  import opened GitHubData

  /** The loop ends on this page: the request failed, or the page is empty. */
  predicate Stops<T>(response: Fetch<seq<T>>) {
    response.HttpError? || response.value == []
  }

  /** The first page at or after `from` on which the loop ends; `k` is any page
      known to end it. */
  function FirstStop<T>(page: nat -> Fetch<seq<T>>, from: nat, k: nat): (n: nat)
    requires from <= k && Stops(page(k))
    ensures from <= n <= k && Stops(page(n))
    ensures forall p :: from <= p < n ==> page(p).Ok? && page(p).value != []
    decreases k - from
  {
    if Stops(page(from)) then from else FirstStop(page, from + 1, k)
  }

  /** The items of pages `lo` .. `hi - 1`, in page order. */
  function Collected<T>(page: nat -> Fetch<seq<T>>, lo: nat, hi: nat): seq<T>
    requires lo <= hi
    requires forall p :: lo <= p < hi ==> page(p).Ok?
    decreases hi - lo
  {
    if lo == hi then [] else Collected(page, lo, hi - 1) + page(hi - 1).value
  }

  /** What a paginated fetch returns: the error of the first page that ends
      the loop if it failed, otherwise all items before the first empty page. */
  function Paginated<T>(page: nat -> Fetch<seq<T>>, k: nat): Fetch<seq<T>>
    requires 1 <= k && Stops(page(k))
  {
    var n := FirstStop(page, 1, k);
    if page(n).HttpError? then HttpError(page(n).status) else Ok(Collected(page, 1, n))
  }

  /** The page numbers 1, 2, ..., n. */
  function PagesThrough(n: nat): (pages: seq<nat>)
    ensures |pages| == n && forall i :: 0 <= i < n ==> pages[i] == i + 1
  {
    seq(n, i => i + 1)
  }

  /** The `while True` loop of the three fetch functions: request page 1, 2, ...
      and extend the result until a page is empty; an error status is raised
      at once. `requested` records the page numbers asked for. */
  method FetchAllPages<T>(page: nat -> Fetch<seq<T>>, ghost k: nat)
    returns (result: Fetch<seq<T>>, ghost requested: seq<nat>)
    requires 1 <= k && Stops(page(k))
    ensures result == Paginated(page, k)
    ensures requested == PagesThrough(FirstStop(page, 1, k))
  {
    ghost var n := FirstStop(page, 1, k);
    var all: seq<T> := [];
    var pageNo: nat := 1;
    requested := [];
    while true
      invariant 1 <= pageNo <= n
      invariant all == Collected(page, 1, pageNo)
      invariant requested == PagesThrough(pageNo - 1)
      decreases k - pageNo
    {
      var response := page(pageNo);
      requested := requested + [pageNo];
      if response.HttpError? {
        result := HttpError(response.status);
        return;
      }
      if response.value == [] {
        break;
      }
      all := all + response.value;
      pageNo := pageNo + 1;
    }
    result := Ok(all);
  }

  /** Which bound `k` certifies termination does not matter: the loop always
      ends on the same page. */
  lemma {:induction false} FirstStopIsLeast<T>(page: nat -> Fetch<seq<T>>, from: nat, k: nat, m: nat)
    requires from <= m && Stops(page(m))
    requires forall p :: from <= p < m ==> !Stops(page(p))
    requires from <= k && Stops(page(k))
    ensures FirstStop(page, from, k) == m
  {
  }

  /** The result does not depend on the bound used to show termination. */
  lemma PaginatedIndependentOfBound<T>(page: nat -> Fetch<seq<T>>, k1: nat, k2: nat)
    requires 1 <= k1 && Stops(page(k1))
    requires 1 <= k2 && Stops(page(k2))
    ensures Paginated(page, k1) == Paginated(page, k2)
  {
    var n := FirstStop(page, 1, k1);
    FirstStopIsLeast(page, 1, k2, n);
  }

  /** An error status on a page that is reached raises, and none of the items
      already collected is returned. */
  lemma ErrorDiscardsPartialResult<T>(page: nat -> Fetch<seq<T>>, k: nat, p: nat)
    requires 1 <= k && Stops(page(k))
    requires 1 <= p && page(p).HttpError?
    requires forall q :: 1 <= q < p ==> page(q).Ok? && page(q).value != []
    ensures Paginated(page, k) == HttpError(page(p).status)
  {
    FirstStopIsLeast(page, 1, k, p);
  }

  /** When every reached page succeeds, the result is the concatenation of
      pages 1 .. n-1, n being the first empty page. */
  lemma SuccessIsConcatenation<T>(page: nat -> Fetch<seq<T>>, k: nat, n: nat)
    requires 1 <= k && Stops(page(k))
    requires 1 <= n && page(n) == Ok([])
    requires forall q :: 1 <= q < n ==> page(q).Ok? && page(q).value != []
    ensures Paginated(page, k) == Ok(Collected(page, 1, n))
  {
    FirstStopIsLeast(page, 1, k, n);
  }

  lemma {:induction false} CollectedLength<T>(page: nat -> Fetch<seq<T>>, lo: nat, hi: nat, size: nat)
    requires lo <= hi
    requires forall p :: lo <= p < hi ==> page(p).Ok? && |page(p).value| == size
    ensures |Collected(page, lo, hi)| == (hi - lo) * size
    decreases hi - lo
  {
    if lo < hi {
      CollectedLength(page, lo, hi - 1, size);
    }
  }

  /** Two pages of 100 items then an empty page: 200 items, and exactly the
      pages 1, 2 and 3 are requested. */
  lemma TwoFullPagesExample(page: nat -> Fetch<seq<int>>)
    requires forall p :: page(p) == if 1 <= p <= 2 then Ok(seq(100, i => i)) else Ok([])
    ensures Paginated(page, 3).Ok? && |Paginated(page, 3).value| == 200
    ensures PagesThrough(FirstStop(page, 1, 3)) == [1, 2, 3]
  {
    assert page(3) == Ok([]);
    FirstStopIsLeast(page, 1, 3, 3);
    CollectedLength(page, 1, 3, 100);
  }

  // ---------------------------------------------------------------------
  // The three paginated fetches and the requests they issue
  // ---------------------------------------------------------------------

  const PerPage: nat := 100

  /** One GET request of a paginated listing, with its query parameters. */
  datatype Request =
    | CommitsRequest(since: string, until: string, sha: string, perPage: nat, page: nat)
    | ClosedPrsRequest(state: string, sort: string, direction: string, perPage: nat,
                       page: nat, since: string, until: string)
    | PrCommitsRequest(number: int, perPage: nat, page: nat)

  /** The request for page `p` of the commit listing: branch `main`, 100 per page. */
  function CommitsQuery(since: string, until: string, p: nat): Request {
    CommitsRequest(since, until, "main", PerPage, p)
  }

  /** The request for page `p` of the closed-PR listing, most recently updated first. */
  function ClosedPrsQuery(since: string, until: string, p: nat): Request {
    ClosedPrsRequest("closed", "updated", "desc", PerPage, p, since, until)
  }

  /** The request for page `p` of the commits of PR `number`. */
  function PrCommitsQuery(number: int, p: nat): Request {
    PrCommitsRequest(number, PerPage, p)
  }

  /** The page oracle seen by the commit listing. */
  function CommitPages(api: Request -> Fetch<seq<Commit>>, since: string, until: string): nat -> Fetch<seq<Commit>> {
    (p: nat) => api(CommitsQuery(since, until, p))
  }

  function ClosedPrPages(api: Request -> Fetch<seq<PullRequest>>, since: string, until: string): nat -> Fetch<seq<PullRequest>> {
    (p: nat) => api(ClosedPrsQuery(since, until, p))
  }

  function PrCommitPages(api: Request -> Fetch<seq<Commit>>, number: int): nat -> Fetch<seq<Commit>> {
    (p: nat) => api(PrCommitsQuery(number, p))
  }

  /** `fetch_commits_from_github`: every commit of branch `main` in the window,
      page by page; `requests` are the requests issued, in order. */
  method FetchCommitsFromGithub(api: Request -> Fetch<seq<Commit>>, since: string, until: string, ghost k: nat)
    returns (result: Fetch<seq<Commit>>, ghost requests: seq<Request>)
    requires 1 <= k && Stops(api(CommitsQuery(since, until, k)))
    ensures result == Paginated(CommitPages(api, since, until), k)
    ensures |requests| == FirstStop(CommitPages(api, since, until), 1, k)
    ensures forall i :: 0 <= i < |requests| ==> requests[i] == CommitsRequest(since, until, "main", 100, i + 1)
  {
    ghost var pages;
    result, pages := FetchAllPages(CommitPages(api, since, until), k);
    requests := seq(|pages|, i requires 0 <= i < |pages| => CommitsQuery(since, until, pages[i]));
  }

  /** `fetch_closed_prs`: every closed pull request, merged or not, page by page. */
  method FetchClosedPrs(api: Request -> Fetch<seq<PullRequest>>, since: string, until: string, ghost k: nat)
    returns (result: Fetch<seq<PullRequest>>, ghost requests: seq<Request>)
    requires 1 <= k && Stops(api(ClosedPrsQuery(since, until, k)))
    ensures result == Paginated(ClosedPrPages(api, since, until), k)
    ensures |requests| == FirstStop(ClosedPrPages(api, since, until), 1, k)
    ensures forall i :: 0 <= i < |requests| ==>
      requests[i] == ClosedPrsRequest("closed", "updated", "desc", 100, i + 1, since, until)
  {
    ghost var pages;
    result, pages := FetchAllPages(ClosedPrPages(api, since, until), k);
    requests := seq(|pages|, i requires 0 <= i < |pages| => ClosedPrsQuery(since, until, pages[i]));
  }

  /** `fetch_commits_in_pr`: every commit of pull request `number`, page by page. */
  method FetchCommitsInPr(api: Request -> Fetch<seq<Commit>>, number: int, ghost k: nat)
    returns (result: Fetch<seq<Commit>>, ghost requests: seq<Request>)
    requires 1 <= k && Stops(api(PrCommitsQuery(number, k)))
    ensures result == Paginated(PrCommitPages(api, number), k)
    ensures |requests| == FirstStop(PrCommitPages(api, number), 1, k)
    ensures forall i :: 0 <= i < |requests| ==> requests[i] == PrCommitsRequest(number, 100, i + 1)
  {
    ghost var pages;
    result, pages := FetchAllPages(PrCommitPages(api, number), k);
    requests := seq(|pages|, i requires 0 <= i < |pages| => PrCommitsQuery(number, pages[i]));
  }

  // ---------------------------------------------------------------------
  // filter_merged_prs
  // ---------------------------------------------------------------------

  /** The pull requests of `prs` whose `merged_at` is truthy, in order. */
  function MergedOnly(prs: seq<PullRequest>): (merged: seq<PullRequest>)
    ensures |merged| <= |prs|
    ensures forall pr :: pr in merged <==> pr in prs && Truthy(pr.mergedAt)
    ensures forall pr :: multiset(merged)[pr] == if Truthy(pr.mergedAt) then multiset(prs)[pr] else 0
  {
    if prs == [] then []
    else
      var last := prs[|prs| - 1];
      var rest := MergedOnly(prs[..|prs| - 1]);
      assert prs == prs[..|prs| - 1] + [last];
      assert multiset(prs) == multiset(prs[..|prs| - 1]) + multiset{last};
      if Truthy(last.mergedAt) then
        assert multiset(rest + [last]) == multiset(rest) + multiset{last};
        rest + [last]
      else rest
  }

  /** `filter_merged_prs`: append each merged PR to the result. */
  method FilterMergedPrs(prs: seq<PullRequest>) returns (merged: seq<PullRequest>)
    ensures merged == MergedOnly(prs)
  {
    merged := [];
    for i := 0 to |prs|
      invariant merged == MergedOnly(prs[..i])
    {
      assert prs[..i + 1][..i] == prs[..i];
      if Truthy(prs[i].mergedAt) {
        merged := merged + [prs[i]];
      }
    }
    assert prs[..|prs|] == prs;
  }

  /** `a` is `b` with some elements left out, order kept. */
  predicate IsSubsequence<T(==)>(a: seq<T>, b: seq<T>)
    decreases |b|
  {
    if a == [] then true
    else if b == [] then false
    else (a[|a| - 1] == b[|b| - 1] && IsSubsequence(a[..|a| - 1], b[..|b| - 1]))
         || IsSubsequence(a, b[..|b| - 1])
  }

  /** The filter keeps the input order. */
  lemma {:induction false} MergedOnlyIsSubsequence(prs: seq<PullRequest>)
    ensures IsSubsequence(MergedOnly(prs), prs)
  {
    if prs != [] {
      var init := prs[..|prs| - 1];
      MergedOnlyIsSubsequence(init);
      var last := prs[|prs| - 1];
      if Truthy(last.mergedAt) {
        assert (MergedOnly(init) + [last])[..|MergedOnly(init)|] == MergedOnly(init);
      } else {
        if MergedOnly(prs) != [] {
          assert MergedOnly(prs) == MergedOnly(init);
        }
      }
    }
  }
}
