/** Values exchanged with the code-hosting API: commits, pull requests and the
    outcome of one HTTP request. Only the fields the report logic reads are kept. */
module GitHubData {

  datatype Option<T> = None | Some(value: T)

  /** The platform account attached to a commit (the JSON `author` object). */
  datatype Account = Account(login: string)

  /** A commit as listed by the API. `account` is the JSON `author` object,
      which is null when the commit is not linked to an account; `gitAuthorName`
      is `commit.author.name`. A JSON null name is represented by "", which,
      like "", is falsy in the source. */
  datatype Commit = Commit(
    sha: string,
    parents: seq<string>,
    account: Option<Account>,
    gitAuthorName: string)

  /** A pull request as listed by the API; `mergedAt` is null for a PR that was
      closed without being merged. */
  datatype PullRequest = PullRequest(number: int, mergedAt: Option<string>)

  /** The outcome of one HTTP request: the decoded body, or the status code
      that `raise_for_status` turned into an `HTTPStatusError`. */
  datatype Fetch<T> = Ok(value: T) | HttpError(status: int)

  /** Python truthiness of a nullable string field. */
  predicate Truthy(s: Option<string>) {
    s.Some? && s.value != ""
  }

  /** A counter map read with a default of 0, as a `defaultdict(int)` or
      `dict.get(key, 0)` reads it. */
  function CountOf(counts: map<string, int>, key: string): int {
    if key in counts then counts[key] else 0
  }
}
