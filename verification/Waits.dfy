/**
 The three waits of a review (pkg/github/client.go). Each polls GitHub until an
 answer is found or its limits are reached.
 */
module Waits {
  import opened Results
  import opened GitHub
  import opened Statuses
  import opened Times
  import opened Polling
  import opened Workflows
  import opened Compare

  /** What a wait returns, unless it crashes. */
  datatype Answer = Answer(passed: bool, error: Option<Error>) | Crashed

  function Refused(error: Error): Answer {
    Answer(false, Some(error))
  }

  const PASSED := Answer(true, None)

  /** A wait that reaches its limits fails; `None` while it is under way. */
  function AnswerOf(w: Waited<Answer>): Option<Answer> {
    match w
    case Waiting => None
    case Ended(answer, _) => Some(answer)
    case TimedOut(_) => Some(Refused(RetryExceedError))
  }

  // ---------- waiting for the workflows of a branch ----------

  /** One round of the wait: what the inner wait sees for each query, and when the
      limits are checked. */
  datatype Round = Round(world: RunQuery -> World, checkedAt: int)

  const FIVE_BY_THE_MINUTE := Limits(0, MINUTE, 0, 5)

  function RoundVerdict(query: RunQuery, required: set<State>, world: World): Verdict<Answer> {
    match AllWorkflows(FIVE_BY_THE_MINUTE, query.isPush, world)
    case None => Open
    case Some(Failed(error)) => Final(Refused(error))
    case Some(Found(states)) => if states <= required then Final(PASSED) else Again(true)
  }

  function RoundPolls(query: RunQuery, required: set<State>, rounds: seq<Round>): seq<Poll<Answer>> {
    seq(|rounds|, i requires 0 <= i < |rounds| =>
      Poll(RoundVerdict(query, required, rounds[i].world(query)), rounds[i].checkedAt))
  }

  /** WaitForPRChecksToPass. */
  function PRChecks(l: Limits, query: RunQuery, required: set<State>, start: int, rounds: seq<Round>): Waited<Answer> {
    Wait(Initialised(l), start, RoundPolls(query, required, rounds), 0)
  }

  method AllRequired(statuses: seq<Status>, required: set<State>) returns (ok: bool)
    ensures ok <==> States(statuses) <= required
  {
    for i := 0 to |statuses|
      invariant forall j | 0 <= j < i :: statuses[j].state in required
    {
      if statuses[i].state !in required {
        assert statuses[i] in statuses;
        assert statuses[i].state in States(statuses);
        return false;
      }
    }
    forall s | s in States(statuses) ensures s in required {
      var status :| status in statuses && status.state == s;
    }
    return true;
  }

  /** One round; `None` to go on, else the answer, if there is one yet. */
  method CheckWorkflows(query: RunQuery, required: set<State>, world: World) returns (r: Verdict<Answer>)
    ensures r == RoundVerdict(query, required, world)
  {
    var inner := new Retry(FIVE_BY_THE_MINUTE);
    var found := AllWorkflowsPassed(inner, query.isPush, world);
    match found {
      case None => return Open;
      case Some(Err(error)) => return Final(Refused(error));
      case Some(Ok(statuses)) =>
        if |statuses| == 0 {
          return Final(PASSED);
        }
        var allChecksPassed := AllRequired(statuses, required);
        if allChecksPassed {
          return Final(PASSED);
        }
        return Again(true);
    }
  }

  method WaitForPRChecksToPass(retry: Retry, query: RunQuery, required: set<State>, start: int, rounds: seq<Round>)
    returns (r: Option<Answer>)
    modifies retry
    ensures r == AnswerOf(PRChecks(old(retry.Model()), query, required, start, rounds))
  {
    ghost var l := Initialised(retry.Model());
    ghost var polls := RoundPolls(query, required, rounds);
    retry.Init();
    retry.Start(start);
    for i := 0 to |rounds|
      invariant retry.Model() == At(l, i) && retry.startTime == start
      invariant Wait(l, start, polls, 0) == Wait(l, start, polls, i)
    {
      var verdict := CheckWorkflows(query, required, rounds[i].world(query));
      match verdict {
        case Open => return None;
        case Final(answer) => return Some(answer);
        case Again(_) =>
      }
      if retry.RetryExceeded(rounds[i].checkedAt) {
        return Some(Refused(RetryExceedError));
      }
      retry.Increment();
    }
    return None;
  }

  // ---------- waiting for an updated branch ----------

  /** One round: the fetch of the pull request, and when the limits are checked. */
  datatype Fetch = Fetch(call: Call, checkedAt: int)

  /** The head of a pull request; that of a nil one is empty. */
  function ShaOf(pr: Option<PullRequest>): string {
    if pr.Some? then pr.value.headSha else []
  }

  function FetchVerdict(oldSha: string, pr: Option<PullRequest>): Verdict<Option<PullRequest>> {
    if oldSha != ShaOf(pr) then Final(pr) else Again(true)
  }

  function FetchPolls(pulls: Pulls, pr: PullRequest, fetches: seq<Fetch>): seq<Poll<Option<PullRequest>>> {
    seq(|fetches|, i requires 0 <= i < |fetches| =>
      Poll(FetchVerdict(pr.headSha, Fetched(pulls, pr.number, fetches[i].call)), fetches[i].checkedAt))
  }

  function RebaseWait(l: Limits, pulls: Pulls, pr: PullRequest, start: int, fetches: seq<Fetch>)
    : Waited<Option<PullRequest>>
  {
    Wait(Initialised(l), start, FetchPolls(pulls, pr, fetches), 0)
  }

  /** The pull request and the error that WaitForRebase returns. */
  function RebaseResult(w: Waited<Option<PullRequest>>, pulls: Pulls, pr: PullRequest, fetches: seq<Fetch>)
    : Option<(Option<PullRequest>, Option<Error>)>
  {
    match w
    case Waiting => None
    case Ended(updated, _) => Some((updated, None))
    case TimedOut(n) =>
      if 0 < n <= |fetches| then Some((Fetched(pulls, pr.number, fetches[n - 1].call), Some(RetryExceedError)))
      else None
  }

  method WaitForRebase(retry: Retry, pulls: Pulls, pr: PullRequest, start: int, fetches: seq<Fetch>)
    returns (sha: string, r: Option<(Option<PullRequest>, Option<Error>)>)
    modifies retry
    ensures sha == pr.headSha
    ensures r == RebaseResult(RebaseWait(old(retry.Model()), pulls, pr, start, fetches), pulls, pr, fetches)
  {
    ghost var l := Initialised(retry.Model());
    retry.Init();
    retry.Start(start);
    sha := pr.headSha;
    ghost var polls := FetchPolls(pulls, pr, fetches);
    for i := 0 to |fetches|
      invariant retry.Model() == At(l, i) && retry.startTime == start
      invariant Wait(l, start, polls, 0) == Wait(l, start, polls, i)
    {
      var updatedPr := Fetched(pulls, pr.number, fetches[i].call);
      if sha != ShaOf(updatedPr) {
        return sha, Some((updatedPr, None));
      }
      if retry.RetryExceeded(fetches[i].checkedAt) {
        return sha, Some((updatedPr, Some(RetryExceedError)));
      }
      retry.Increment();
    }
    return sha, None;
  }

  // ---------- waiting for the status checks of a pull request ----------

  /** The answer to a fetch of the branch protection. */
  datatype Protection = Unprotected | Protected(contexts: Option<seq<string>>) | ProtectionError

  /** What one round sees: its fetch of the pull request, and then the protection of
      a branch, the workflow runs of a query and the pages of the statuses of a commit. */
  datatype Snapshot = Snapshot(
    call: Call,
    protection: string -> Protection,
    workflows: RunQuery -> World,
    statuses: string -> StatusPages,
    checkedAt: int)

  const SIX_EVERY_TWENTY_SECONDS := Limits(0, TWENTY_SECONDS, 0, 6)

  function Required(protection: Protection): seq<string> {
    if protection.Protected? && protection.contexts.Some? then protection.contexts.value else []
  }

  /** The first status at or after `i` that is not finished. */
  function FirstUnfinished(stats: seq<Status>, i: nat): (r: nat)
    requires i <= |stats|
    ensures i <= r <= |stats| && (forall j | i <= j < r :: Finished(stats[j].state))
    ensures r < |stats| ==> !Finished(stats[r].state)
    decreases |stats| - i
  {
    if i == |stats| || !Finished(stats[i].state) then i else FirstUnfinished(stats, i + 1)
  }

  /** The first status that is not finished decides; without one, the required names do. */
  function StatusesVerdict(stats: seq<Status>, required: seq<string>): Verdict<Answer> {
    var i := FirstUnfinished(stats, 0);
    if i < |stats| then
      if stats[i].state.NoState? || Running(stats[i].state) then Again(false) else Final(Refused(StatusCheckError))
    else if Missing(FinishedNames(stats), required) == [] then Final(PASSED)
    else Again(true)
  }

  /** The query of a round for the workflows of a pull request, on any branch. */
  function HeadQuery(pr: PullRequest): RunQuery {
    RunQuery(false, [], pr.headSha)
  }

  /** A round that asks for the pull request of this number. */
  function SnapshotVerdict(pulls: Pulls, number: nat, s: Snapshot): Verdict<Answer> {
    match Fetched(pulls, number, s.call)
    case None => Final(Refused(ApiError))
    case Some(pr) =>
      if s.protection(pr.baseRef).ProtectionError? then Final(Refused(ApiError))
      else
        match AllWorkflows(SIX_EVERY_TWENTY_SECONDS, false, s.workflows(HeadQuery(pr)))
        case None => Open
        case Some(Failed(error)) => Final(Refused(error))
        case Some(Found(_)) =>
          match Collected(s.statuses(pr.headSha))
          case None => Final(Crashed)
          case Some(stats) => StatusesVerdict(stats, Required(s.protection(pr.baseRef)))
  }

  function SnapshotPolls(pulls: Pulls, number: nat, snapshots: seq<Snapshot>): seq<Poll<Answer>> {
    seq(|snapshots|, i requires 0 <= i < |snapshots| =>
      Poll(SnapshotVerdict(pulls, number, snapshots[i]), snapshots[i].checkedAt))
  }

  /** WaitForStatusChecks of the pull request of this number. */
  function StatusChecks(l: Limits, pulls: Pulls, number: nat, start: int, snapshots: seq<Snapshot>): Waited<Answer> {
    Wait(Initialised(l), start, SnapshotPolls(pulls, number, snapshots), 0)
  }

  method ScanStatuses(stats: seq<Status>, required: seq<string>) returns (r: Verdict<Answer>)
    ensures r == StatusesVerdict(stats, required)
  {
    var finishedStatuses: seq<string> := [];
    var inProgress := false;
    for i := 0 to |stats|
      invariant finishedStatuses == FinishedNames(stats[..i])
      invariant FirstUnfinished(stats, 0) == FirstUnfinished(stats, i)
    {
      assert stats[..i + 1][..i] == stats[..i];
      var s := stats[i];
      if s.state.NoState? {
        return Again(false);
      }
      if !Finished(s.state) && !Running(s.state) {
        return Final(Refused(StatusCheckError));
      }
      if Finished(s.state) {
        finishedStatuses := finishedStatuses + [s.name];
      }
      if Running(s.state) {
        return Again(false);
      }
    }
    assert stats[..|stats|] == stats;
    var unsatisfied := Complement(finishedStatuses, required);
    return if |unsatisfied| <= 0 then Final(PASSED) else Again(true);
  }

  method TakeSnapshot(pulls: Pulls, number: nat, s: Snapshot) returns (r: Verdict<Answer>)
    ensures r == SnapshotVerdict(pulls, number, s)
  {
    var fetched := Fetched(pulls, number, s.call);
    if fetched.None? {
      return Final(Refused(ApiError));
    }
    var pr := fetched.value;
    var requiredChecks: seq<string> := [];
    match s.protection(pr.baseRef) {
      case ProtectionError => return Final(Refused(ApiError));
      case Unprotected =>
      case Protected(contexts) =>
        if contexts.Some? {
          requiredChecks := contexts.value;
        }
    }
    var inner := new Retry(SIX_EVERY_TWENTY_SECONDS);
    var workflows := AllWorkflowsPassed(inner, false, s.workflows(HeadQuery(pr)));
    match workflows {
      case None => return Open;
      case Some(Err(error)) => return Final(Refused(error));
      case Some(Ok(_)) =>
    }
    var statuses := GetStatuses(s.statuses(pr.headSha));
    match statuses {
      case None => return Final(Crashed);
      case Some(stats) => r := ScanStatuses(stats, requiredChecks);
    }
  }

  /** The limits are passed by value. Every round asks for the number of the given pull
      request, which may be nil. */
  method WaitForStatusChecks(l: Limits, pulls: Pulls, pr: Option<PullRequest>, start: int, snapshots: seq<Snapshot>)
    returns (r: Option<Answer>)
    ensures r == AnswerOf(StatusChecks(l, pulls, NumberOf(pr), start, snapshots))
  {
    var retry := new Retry(l);
    ghost var polls := SnapshotPolls(pulls, NumberOf(pr), snapshots);
    retry.Init();
    retry.Start(start);
    for i := 0 to |snapshots|
      invariant retry.Model() == At(Initialised(l), i) && retry.startTime == start
      invariant Wait(Initialised(l), start, polls, 0) == Wait(Initialised(l), start, polls, i)
    {
      var verdict := TakeSnapshot(pulls, NumberOf(pr), snapshots[i]);
      match verdict {
        case Open => return None;
        case Final(answer) => return Some(answer);
        case Again(limited) =>
          if limited {
            if retry.RetryExceeded(snapshots[i].checkedAt) {
              return Some(Refused(RetryExceedError));
            }
          }
      }
      retry.Increment();
    }
    return None;
  }
}
