/** Workflow runs and the wait for them to be queued (pkg/github/client.go). */
module Workflows {
  import opened Results
  import opened Statuses
  import opened Polling

  datatype Error = ApiError | WorkflowRunError | StatusCheckError | RetryExceedError | NotMergable

  datatype Run = Run(name: string, number: int, status: State, conclusion: State)

  /** The answer of one listing of workflow runs. */
  type Listing = Result<seq<Run>, string>

  // ---------- the latest run of each workflow ----------

  function Latest(runs: seq<Run>): map<string, Run> {
    if runs == [] then map[]
    else
      var rest, run := Latest(runs[..|runs| - 1]), runs[|runs| - 1];
      if run.name !in rest || run.number > rest[run.name].number then rest[run.name := run] else rest
  }

  method GetLatestWorkflowRuns(runs: seq<Run>) returns (latestRuns: map<string, Run>)
    ensures latestRuns == Latest(runs)
  {
    latestRuns := map[];
    for i := 0 to |runs|
      invariant latestRuns == Latest(runs[..i])
    {
      assert runs[..i + 1][..i] == runs[..i];
      var run := runs[i];
      if run.name !in latestRuns || run.number > latestRuns[run.name].number {
        latestRuns := latestRuns[run.name := run];
      }
    }
    assert runs[..|runs|] == runs;
  }

  /** The run at `i` is the first of its name with the greatest number. */
  ghost predicate IsLatestAt(runs: seq<Run>, i: nat) {
    && i < |runs|
    && (forall j | 0 <= j < i && runs[j].name == runs[i].name :: runs[j].number < runs[i].number)
    && (forall j | i <= j < |runs| && runs[j].name == runs[i].name :: runs[j].number <= runs[i].number)
  }

  ghost predicate Named(runs: seq<Run>, n: string) {
    exists i | 0 <= i < |runs| :: runs[i].name == n
  }

  /** The index of the first run of this name with the greatest number, if the name occurs. */
  lemma {:induction false} LatestIndex(runs: seq<Run>, n: string) returns (i: nat)
    ensures n in Latest(runs) <==> Named(runs, n)
    ensures n in Latest(runs) ==> IsLatestAt(runs, i) && runs[i] == Latest(runs)[n] && runs[i].name == n
  {
    i := 0;
    if runs != [] {
      var before, last := runs[..|runs| - 1], |runs| - 1;
      assert forall j | 0 <= j < last :: before[j] == runs[j];
      i := LatestIndex(before, n);
      if runs[last].name == n {
        assert Named(runs, n);
        if n !in Latest(before) || runs[last].number > Latest(before)[n].number {
          i := last;
        }
      } else {
        assert Named(runs, n) ==> Named(before, n);
      }
    }
  }

  /** Every workflow name is mapped to its first run with the greatest number. */
  lemma LatestMeans(runs: seq<Run>, n: string)
    ensures n in Latest(runs) <==> Named(runs, n)
    ensures n in Latest(runs) ==>
            exists i: nat :: IsLatestAt(runs, i) && runs[i] == Latest(runs)[n] && runs[i].name == n
  {
    var i := LatestIndex(runs, n);
  }

  ghost predicate DistinctNumbers(runs: seq<Run>) {
    forall r, s | r in runs && s in runs && r.name == s.name && r.number == s.number :: r == s
  }

  /** The order of the listing does not matter when numbers are distinct per name. */
  lemma LatestIgnoresOrder(a: seq<Run>, b: seq<Run>)
    requires DistinctNumbers(a) && forall r :: r in a <==> r in b
    ensures Latest(a) == Latest(b)
  {
    forall n ensures n in Latest(a) <==> n in Latest(b) {
      SameNames(a, b, n);
      LatestMeans(a, n);
      LatestMeans(b, n);
    }
    forall n | n in Latest(a) ensures Latest(a)[n] == Latest(b)[n] {
      SameLatest(a, b, n);
    }
  }

  lemma SameLatest(a: seq<Run>, b: seq<Run>, n: string)
    requires DistinctNumbers(a) && (forall r :: r in a <==> r in b) && n in Latest(a) && n in Latest(b)
    ensures Latest(a)[n] == Latest(b)[n]
  {
    var i := LatestIndex(a, n);
    var j := LatestIndex(b, n);
    assert a[i] in b && b[j] in a;
    GreatestOf(a, i, b[j]);
    GreatestOf(b, j, a[i]);
  }

  lemma SameNames(a: seq<Run>, b: seq<Run>, n: string)
    requires forall r :: r in a <==> r in b
    ensures Named(a, n) <==> Named(b, n)
  {
    if Named(a, n) {
      var i :| 0 <= i < |a| && a[i].name == n;
      assert a[i] in b;
    }
    if Named(b, n) {
      var j :| 0 <= j < |b| && b[j].name == n;
      assert b[j] in a;
    }
  }

  lemma GreatestOf(runs: seq<Run>, i: nat, r: Run)
    requires IsLatestAt(runs, i) && r in runs && r.name == runs[i].name
    ensures r.number <= runs[i].number
  {
    var j :| 0 <= j < |runs| && runs[j] == r;
  }

  // ---------- the states the wait reports ----------

  /** The outcome of AllWorkflowsPassed: an error, or statuses of which only the
      states matter to its callers. */
  datatype Outcome = Failed(error: Error) | Found(states: set<State>)

  function StateOf(run: Run): State {
    if !run.conclusion.NoState? then run.conclusion else run.status
  }

  function StatesOf(latest: map<string, Run>): set<State> {
    set n | n in latest :: StateOf(latest[n])
  }

  function States(statuses: seq<Status>): set<State> {
    set s | s in statuses :: s.state
  }

  /** One poll of the wait, when `expected` workflows ran for the last merged pull
      request. On the main branch no run at all is enough. */
  function ListingVerdict(isPush: bool, expected: nat, listing: Listing): Verdict<Outcome> {
    match listing
    case Err(_) => Final(Failed(ApiError))
    case Ok(runs) =>
      if (isPush && Latest(runs) == map[]) || |Latest(runs)| >= expected then Final(Found(StatesOf(Latest(runs))))
      else Again(true)
  }

  predicate IsBad(run: Run) {
    run.conclusion.Failure? || run.conclusion.Cancelled?
  }

  /** The answers AllWorkflowsPassed sees. Without a last merged pull request it
      looks at one listing; otherwise it compares listings, each with the time its
      limits are checked, with the runs of that pull request. */
  datatype World =
    | NoBaseline(listing: Listing)
    | Baseline(runs: Listing, start: int, listings: seq<(Listing, int)>)

  function ListingPolls(isPush: bool, expected: nat, listings: seq<(Listing, int)>): seq<Poll<Outcome>> {
    seq(|listings|, i requires 0 <= i < |listings| =>
      Poll(ListingVerdict(isPush, expected, listings[i].0), listings[i].1))
  }

  function LatestIn(listing: Listing): map<string, Run> {
    match listing
    case Ok(runs) => Latest(runs)
    case Err(_) => map[]
  }

  /** What the loop over the listings comes to. */
  function WaitForListings(l: Limits, isPush: bool, expected: nat, start: int, listings: seq<(Listing, int)>)
    : Option<Outcome>
  {
    OutcomeOf(Wait(l, start, ListingPolls(isPush, expected, listings), 0), listings)
  }

  function OutcomeOf(w: Waited<Outcome>, listings: seq<(Listing, int)>): Option<Outcome> {
    match w
    case Waiting => None
    case Ended(outcome, _) => Some(outcome)
    case TimedOut(n) =>
      if 0 < n <= |listings| then Some(Found(StatesOf(LatestIn(listings[n - 1].0)))) else None
  }

  /** What the wait comes to; `None` while it is still under way. */
  function AllWorkflows(l: Limits, isPush: bool, world: World): Option<Outcome> {
    match world
    case NoBaseline(Err(_)) => Some(Failed(ApiError))
    case NoBaseline(Ok(runs)) =>
      if exists i | 0 <= i < |runs| :: IsBad(runs[i]) then Some(Failed(WorkflowRunError))
      else Some(Found(set r | r in runs :: r.conclusion))
    case Baseline(Err(_), _, _) => Some(Failed(ApiError))
    case Baseline(Ok(runs), start, listings) => WaitForListings(Initialised(l), isPush, |Latest(runs)|, start, listings)
  }

  /** The statuses of the latest runs, in any order. */
  method StatusesOf(latest: map<string, Run>) returns (statuses: seq<Status>)
    ensures |statuses| == |latest| && States(statuses) == StatesOf(latest)
  {
    statuses := [];
    var todo := latest.Keys;
    while todo != {}
      invariant todo <= latest.Keys
      invariant |statuses| == |latest| - |todo|
      invariant forall s :: s in States(statuses) <==> exists n | n in latest.Keys - todo :: StateOf(latest[n]) == s
    {
      var n :| n in todo;
      var run := latest[n];
      var state := run.status;
      if !run.conclusion.NoState? {
        state := run.conclusion;
      }
      ghost var before := statuses;
      statuses := statuses + [Status(run.name, state)];
      assert forall s :: s in States(statuses) <==> s in States(before) || s == state by {
        assert forall x :: x in statuses <==> x in before || x == Status(run.name, state);
        assert Status(run.name, state) in statuses;
      }
      assert latest.Keys - (todo - {n}) == (latest.Keys - todo) + {n};
      todo := todo - {n};
    }
    assert latest.Keys - {} == latest.Keys;
  }

  /** The returned statuses or error show this outcome. */
  ghost predicate Shows(r: Option<Result<seq<Status>, Error>>, outcome: Option<Outcome>) {
    match outcome
    case None => r.None?
    case Some(Failed(error)) => r == Some(Err(error))
    case Some(Found(states)) => r.Some? && r.value.Ok? && States(r.value.value) == states
  }

  method ListUntilQueued(retry: Retry, isPush: bool, expected: nat, start: int, listings: seq<(Listing, int)>)
    returns (r: Option<Result<seq<Status>, Error>>)
    modifies retry
    ensures Shows(r, WaitForListings(Initialised(old(retry.Model())), isPush, expected, start, listings))
  {
    ghost var l := Initialised(retry.Model());
    ghost var polls := ListingPolls(isPush, expected, listings);
    retry.Init();
    retry.Start(start);
    for i := 0 to |listings|
      invariant retry.Model() == At(l, i) && retry.startTime == start
      invariant Wait(l, start, polls, 0) == Wait(l, start, polls, i)
    {
      match listings[i].0 {
        case Err(_) => return Some(Err(ApiError));
        case Ok(found) =>
          var latest := GetLatestWorkflowRuns(found);
          var statuses := StatusesOf(latest);
          if isPush && |statuses| == 0 {
            return Some(Ok(statuses));
          }
          if |statuses| >= expected {
            return Some(Ok(statuses));
          }
          if retry.RetryExceeded(listings[i].1) {
            return Some(Ok(statuses));
          }
      }
      retry.Increment();
    }
    return None;
  }

  /** AllWorkflowsPassed. */
  method AllWorkflowsPassed(retry: Retry, isPush: bool, world: World) returns (r: Option<Result<seq<Status>, Error>>)
    modifies retry
    ensures Shows(r, AllWorkflows(old(retry.Model()), isPush, world))
  {
    match world {
      case NoBaseline(listing) =>
        r := LookOnce(listing);
      case Baseline(baseline, start, listings) =>
        match baseline {
          case Err(_) => return Some(Err(ApiError));
          case Ok(runs) =>
            var expected := GetLatestWorkflowRuns(runs);
            r := ListUntilQueued(retry, isPush, |expected|, start, listings);
        }
    }
  }

  /** The path without a last merged pull request: the same listing is gone through
      three times. */
  method LookOnce(listing: Listing) returns (r: Option<Result<seq<Status>, Error>>)
    ensures Shows(r, AllWorkflows(Limits(0, 0, 0, 0), false, NoBaseline(listing)))
  {
    var statuses: seq<Status> := [];
    for i := 0 to 3
      invariant i > 0 ==> listing.Ok? && (forall j | 0 <= j < |listing.value| :: !IsBad(listing.value[j]))
                          && States(statuses) == set run | run in listing.value :: run.conclusion
    {
      statuses := [];
      match listing {
        case Err(_) => return Some(Err(ApiError));
        case Ok(runs) =>
          for j := 0 to |runs|
            invariant forall m | 0 <= m < j :: !IsBad(runs[m])
            invariant |statuses| == j
            invariant forall m | 0 <= m < j :: statuses[m] == Status(runs[m].name, runs[m].conclusion)
          {
            if runs[j].conclusion.Failure? || runs[j].conclusion.Cancelled? {
              return Some(Err(WorkflowRunError));
            }
            statuses := statuses + [Status(runs[j].name, runs[j].conclusion)];
          }
          Conclusions(runs, statuses);
      }
    }
    return Some(Ok(statuses));
  }

  lemma Conclusions(runs: seq<Run>, statuses: seq<Status>)
    requires |statuses| == |runs|
    requires forall m | 0 <= m < |runs| :: statuses[m] == Status(runs[m].name, runs[m].conclusion)
    ensures States(statuses) == set run | run in runs :: run.conclusion
  {
    forall s ensures s in States(statuses) <==> s in (set run | run in runs :: run.conclusion) {
      if s in States(statuses) {
        var m :| 0 <= m < |statuses| && statuses[m].state == s;
        assert runs[m] in runs;
      }
      if run :| run in runs && run.conclusion == s {
        var m :| 0 <= m < |runs| && runs[m] == run;
        assert statuses[m] in statuses;
      }
    }
  }
}
