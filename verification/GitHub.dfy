/** The parts of GitHub's objects that the reviewer looks at. */
module GitHub {
  import opened Results

  datatype PullRequest = PullRequest(
    number: nat,
    closed: bool,  // its state is "closed"
    owner: string,
    labels: seq<string>,
    headRef: string,
    headSha: string,
    baseRef: string,
    baseSha: string,
    createdAt: Option<int>)

  /** What the pull request of a number looks like on GitHub at a time. */
  type Pulls = (nat, int) -> PullRequest

  /** A fetch of a pull request: whether it succeeds, and when GitHub answers it. */
  datatype Call = Call(ok: bool, at: int)

  /** GitHub numbers pull requests from 1, so a fetch of number 0 always fails. */
  function Fetched(pulls: Pulls, number: nat, call: Call): Option<PullRequest> {
    if call.ok && number != 0 then Some(pulls(number, call.at).(number := number)) else None
  }

  /** The number of a pull request; 0 for a nil one. */
  function NumberOf(pr: Option<PullRequest>): nat {
    if pr.Some? then pr.value.number else 0
  }

  /** A query for workflow runs: of pushes or of pull requests, on a branch and a commit. */
  datatype RunQuery = RunQuery(isPush: bool, branch: string, sha: string)

  /** The name of a merge method: the empty one, those GitHub knows, and all others. */
  datatype MergeMethod = NoMethod | MergeCommit | Squash | Rebase | OtherMethod(text: string)

  /** The merge switches of a repository; each may be absent. */
  datatype Repository = Repository(
    allowMergeCommit: Option<bool>,
    allowSquashMerge: Option<bool>,
    allowRebaseMerge: Option<bool>)

  function SafeBool(b: Option<bool>): bool {
    b == Some(true)
  }

  predicate Allowed(repo: Repository, m: MergeMethod) {
    || (m == MergeCommit && repo.allowMergeCommit == Some(true))
    || (m == Squash && repo.allowSquashMerge == Some(true))
    || (m == Rebase && repo.allowRebaseMerge == Some(true))
  }

  function GetMergeMethod(m: MergeMethod, repo: Repository): MergeMethod {
    if m.MergeCommit? && SafeBool(repo.allowMergeCommit) then MergeCommit
    else if m.Squash? && SafeBool(repo.allowSquashMerge) then Squash
    else if m.Rebase? && SafeBool(repo.allowRebaseMerge) then Rebase
    else if SafeBool(repo.allowMergeCommit) then MergeCommit
    else if SafeBool(repo.allowSquashMerge) then Squash
    else if SafeBool(repo.allowRebaseMerge) then Rebase
    else NoMethod
  }

  /** The method used is one the repository allows, the configured one if that is
      allowed, else the first allowed one, and empty only when none is allowed. */
  lemma MergeMethodMeans(m: MergeMethod, repo: Repository)
    ensures var r := GetMergeMethod(m, repo);
            && (!r.NoMethod? ==> Allowed(repo, r))
            && (Allowed(repo, m) ==> r == m)
            && (!Allowed(repo, m) && Allowed(repo, MergeCommit) ==> r == MergeCommit)
            && (!Allowed(repo, m) && !Allowed(repo, MergeCommit) && Allowed(repo, Squash) ==> r == Squash)
            && (r.NoMethod? <==> forall a :: !Allowed(repo, a))
  {
    assert Allowed(repo, MergeCommit) <==> SafeBool(repo.allowMergeCommit);
    assert Allowed(repo, Squash) <==> SafeBool(repo.allowSquashMerge);
    assert Allowed(repo, Rebase) <==> SafeBool(repo.allowRebaseMerge);
  }
}
