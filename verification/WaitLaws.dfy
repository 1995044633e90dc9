/** What the waits guarantee, how often they poll, and where they have no bound. */
module WaitLaws {
  import opened Results
  import opened GitHub
  import opened Statuses
  import opened Polling
  import opened Workflows
  import opened Waits

  /** Either passed without an error or failed with one. */
  predicate Decided(a: Answer) {
    a.Answer? ==> (a.passed <==> a.error.None?)
  }

  /** A wait gives this answer, unless it is that of its limits, exactly when the poll
      that ends it does. */
  lemma WaitAnswers(l: Limits, start: int, polls: seq<Poll<Answer>>, a: Answer)
    requires a != Refused(RetryExceedError)
    ensures AnswerOf(Wait(l, start, polls, 0)) == Some(a) <==> exists n: nat :: EndsAt(l, start, polls, a, n)
  {
    var w := Wait(l, start, polls, 0);
    WaitMeans(l, start, polls, 0);
    if AnswerOf(w) == Some(a) {
      assert EndsAt(l, start, polls, a, w.polls - 1);
    }
    if n: nat :| EndsAt(l, start, polls, a, n) {
      WaitGoesOn(l, start, polls, 0, n);
    }
  }

  ghost predicate EndsAt(l: Limits, start: int, polls: seq<Poll<Answer>>, a: Answer, n: nat) {
    n < |polls| && polls[n].verdict == Final(a) && forall j | 0 <= j < n :: GoesOn(l, start, polls, j)
  }

  /** Poll `n` asks for another round and finds the limits exceeded. */
  ghost predicate GivesUpAt(l: Limits, start: int, polls: seq<Poll<Answer>>, n: nat) {
    && n < |polls| && polls[n].verdict == Again(true) && Exceeded(At(l, n), start, polls[n].checkedAt)
    && forall j | 0 <= j < n :: GoesOn(l, start, polls, j)
  }

  /** No poll by itself says that the limits are exceeded. */
  ghost predicate NeverExceeds(polls: seq<Poll<Answer>>) {
    forall i | 0 <= i < |polls| :: polls[i].verdict != Final(Refused(RetryExceedError))
  }

  /** A wait fails at its limits exactly when a poll gives up. */
  lemma WaitGivesUp(l: Limits, start: int, polls: seq<Poll<Answer>>)
    requires NeverExceeds(polls)
    ensures AnswerOf(Wait(l, start, polls, 0)) == Some(Refused(RetryExceedError)) <==>
            exists n: nat :: GivesUpAt(l, start, polls, n)
  {
    var w := Wait(l, start, polls, 0);
    WaitMeans(l, start, polls, 0);
    if w.TimedOut? {
      assert GivesUpAt(l, start, polls, w.polls - 1);
    }
    if n: nat :| GivesUpAt(l, start, polls, n) {
      WaitGoesOn(l, start, polls, 0, n);
    }
  }

  // ---------- which runs are reported ----------

  /** Fewer workflows than expected have run; on the main branch none at all is enough. */
  predicate TooFew(isPush: bool, expected: nat, listing: Listing) {
    listing.Ok? && |Latest(listing.value)| < expected && !(isPush && Latest(listing.value) == map[])
  }

  /** The loop over the listings reports listing `n`: the first that shows enough
      workflows, or at which the limits are exceeded. */
  ghost predicate ReportsAt(l: Limits, isPush: bool, expected: nat, start: int, listings: seq<(Listing, int)>, n: nat) {
    && n < |listings| && listings[n].0.Ok?
    && (TooFew(isPush, expected, listings[n].0) ==> Exceeded(At(l, n), start, listings[n].1))
    && forall j | 0 <= j < n ::
         TooFew(isPush, expected, listings[j].0) && !Exceeded(At(l, j), start, listings[j].1)
  }

  lemma ListingGoesOn(l: Limits, isPush: bool, expected: nat, start: int, listings: seq<(Listing, int)>, j: nat)
    requires j < |listings|
    ensures GoesOn(l, start, ListingPolls(isPush, expected, listings), j) <==>
            TooFew(isPush, expected, listings[j].0) && !Exceeded(At(l, j), start, listings[j].1)
  {
  }

  lemma ListingFound(isPush: bool, expected: nat, listing: Listing, states: set<State>)
    ensures ListingVerdict(isPush, expected, listing) == Final(Found(states)) <==>
            listing.Ok? && !TooFew(isPush, expected, listing) && states == StatesOf(LatestIn(listing))
    ensures ListingVerdict(isPush, expected, listing) == Again(true) <==> TooFew(isPush, expected, listing)
  {
  }

  lemma Reported(l: Limits, isPush: bool, expected: nat, start: int, listings: seq<(Listing, int)>, states: set<State>)
    returns (n: nat)
    requires WaitForListings(l, isPush, expected, start, listings) == Some(Found(states))
    ensures ReportsAt(l, isPush, expected, start, listings, n) && states == StatesOf(LatestIn(listings[n].0))
  {
    var polls := ListingPolls(isPush, expected, listings);
    var w := Wait(l, start, polls, 0);
    WaitMeans(l, start, polls, 0);
    n := w.polls - 1;
    ListingFound(isPush, expected, listings[n].0, states);
    forall j | 0 <= j < n ensures TooFew(isPush, expected, listings[j].0) && !Exceeded(At(l, j), start, listings[j].1) {
      assert GoesOn(l, start, polls, j);
      ListingGoesOn(l, isPush, expected, start, listings, j);
    }
  }

  lemma Reporting(l: Limits, isPush: bool, expected: nat, start: int, listings: seq<(Listing, int)>, n: nat)
    requires ReportsAt(l, isPush, expected, start, listings, n)
    ensures WaitForListings(l, isPush, expected, start, listings) == Some(Found(StatesOf(LatestIn(listings[n].0))))
  {
    forall j | 0 <= j < n ensures GoesOn(l, start, ListingPolls(isPush, expected, listings), j) {
      ListingGoesOn(l, isPush, expected, start, listings, j);
    }
    ListingFound(isPush, expected, listings[n].0, StatesOf(LatestIn(listings[n].0)));
    WaitGoesOn(l, start, ListingPolls(isPush, expected, listings), 0, n);
  }

  /** The loop returns exactly the states of the listing it reports. */
  lemma ReportedListing(l: Limits, isPush: bool, expected: nat, start: int, listings: seq<(Listing, int)>,
                        states: set<State>)
    ensures WaitForListings(l, isPush, expected, start, listings) == Some(Found(states)) <==>
            exists n: nat ::
              ReportsAt(l, isPush, expected, start, listings, n) && states == StatesOf(LatestIn(listings[n].0))
  {
    if WaitForListings(l, isPush, expected, start, listings) == Some(Found(states)) {
      var n := Reported(l, isPush, expected, start, listings, states);
    }
    if n: nat :| ReportsAt(l, isPush, expected, start, listings, n) && states == StatesOf(LatestIn(listings[n].0)) {
      Reporting(l, isPush, expected, start, listings, n);
    }
  }

  /** The runs whose states AllWorkflowsPassed reports: on the path with a last merged
      pull request the latest of each workflow in one listing, else all of the listing. */
  ghost predicate Reports(l: Limits, isPush: bool, world: World, states: set<State>) {
    match world
    case NoBaseline(listing) =>
      && listing.Ok? && (forall r | r in listing.value :: r.conclusion !in {Failure, Cancelled})
      && states == set r | r in listing.value :: r.conclusion
    case Baseline(base, start, listings) =>
      && base.Ok?
      && exists n: nat :: ReportsAt(Initialised(l), isPush, |Latest(base.value)|, start, listings, n)
                       && states == StatesOf(LatestIn(listings[n].0))
  }

  /** AllWorkflowsPassed returns exactly the states of those runs. */
  lemma ReportsIff(l: Limits, isPush: bool, world: World, states: set<State>)
    ensures AllWorkflows(l, isPush, world) == Some(Found(states)) <==> Reports(l, isPush, world, states)
  {
    match world
    case NoBaseline(Ok(runs)) =>
      assert forall i | 0 <= i < |runs| :: runs[i] in runs;
    case Baseline(Ok(base), start, listings) =>
      ReportedListing(Initialised(l), isPush, |Latest(base)|, start, listings, states);
    case _ =>
  }

  /** Each workflow's latest run has one of these conclusions, or without a conclusion one
      of these as its status. */
  ghost predicate LatestAllowed(runs: seq<Run>, allowed: set<State>) {
    forall i: nat | IsLatestAt(runs, i) ::
      (if runs[i].conclusion == NoState then runs[i].status else runs[i].conclusion) in allowed
  }

  lemma LatestAllowedIff(runs: seq<Run>, allowed: set<State>)
    ensures StatesOf(Latest(runs)) <= allowed <==> LatestAllowed(runs, allowed)
  {
    forall i: nat | IsLatestAt(runs, i) ensures StateOf(runs[i]) in StatesOf(Latest(runs)) {
      LatestAt(runs, i);
    }
    forall n | n in Latest(runs) && LatestAllowed(runs, allowed) ensures StateOf(Latest(runs)[n]) in allowed {
      LatestMeans(runs, n);
    }
  }

  /** A run that is the latest of its name is the one kept for it. */
  lemma LatestAt(runs: seq<Run>, i: nat)
    requires IsLatestAt(runs, i)
    ensures runs[i].name in Latest(runs) && Latest(runs)[runs[i].name] == runs[i]
  {
    var n := runs[i].name;
    assert Named(runs, n);
    var j := LatestIndex(runs, n);
    assert i == j;
  }

  /** When the two nested waits give up: at their fifth and sixth attempt, or after ten
      minutes; they pause for a minute and for twenty seconds. */
  lemma NestedLimits(start: int, now: int, i: nat)
    ensures Exceeded(At(Initialised(FIVE_BY_THE_MINUTE), i), start, now) <==> i >= 5 || now > start + 600_000_000_000
    ensures Exceeded(At(Initialised(SIX_EVERY_TWENTY_SECONDS), i), start, now) <==>
            i >= 6 || now > start + 600_000_000_000
    ensures Initialised(FIVE_BY_THE_MINUTE).pauseTime == 60_000_000_000
    ensures Initialised(SIX_EVERY_TWENTY_SECONDS).pauseTime == 20_000_000_000
  {
  }

  // ---------- the workflows of a branch ----------

  /** All reported runs have a required state; none at all will do. */
  ghost predicate Clears(query: RunQuery, required: set<State>, world: World) {
    exists states :: Reports(FIVE_BY_THE_MINUTE, query.isPush, world, states) && states <= required
  }

  /** Some reported run has another state, and the limits allow another round. */
  ghost predicate WaitsOn(l: Limits, query: RunQuery, required: set<State>, start: int, round: Round, i: nat) {
    && (exists states :: Reports(FIVE_BY_THE_MINUTE, query.isPush, round.world(query), states) && !(states <= required))
    && !Exceeded(At(Initialised(l), i), start, round.checkedAt)
  }

  ghost predicate ClearsAt(l: Limits, query: RunQuery, required: set<State>, start: int, rounds: seq<Round>, n: nat) {
    && n < |rounds| && Clears(query, required, rounds[n].world(query))
    && forall j | 0 <= j < n :: WaitsOn(l, query, required, start, rounds[j], j)
  }

  lemma RoundMeans(query: RunQuery, required: set<State>, world: World)
    ensures RoundVerdict(query, required, world) == Final(PASSED) <==> Clears(query, required, world)
    ensures RoundVerdict(query, required, world) == Again(true) <==>
            exists states :: Reports(FIVE_BY_THE_MINUTE, query.isPush, world, states) && !(states <= required)
    ensures RoundVerdict(query, required, world) != Again(false)
  {
    forall states {
      ReportsIff(FIVE_BY_THE_MINUTE, query.isPush, world, states);
    }
  }

  /** The wait passes exactly when some round clears the branch and every round
      before it had a reason and the time to go on. */
  lemma PRChecksPass(l: Limits, query: RunQuery, required: set<State>, start: int, rounds: seq<Round>)
    ensures AnswerOf(PRChecks(l, query, required, start, rounds)) == Some(PASSED) <==>
            exists n: nat :: ClearsAt(l, query, required, start, rounds, n)
  {
    var polls := RoundPolls(query, required, rounds);
    WaitAnswers(Initialised(l), start, polls, PASSED);
    forall j | 0 <= j < |rounds|
      ensures polls[j].verdict == Final(PASSED) <==> Clears(query, required, rounds[j].world(query))
      ensures WaitsOn(l, query, required, start, rounds[j], j) <==> GoesOn(Initialised(l), start, polls, j)
    {
      RoundMeans(query, required, rounds[j].world(query));
    }
    assert forall n: nat ::
        ClearsAt(l, query, required, start, rounds, n) <==> EndsAt(Initialised(l), start, polls, PASSED, n);
  }

  /** What a clear branch means for its runs: with a last merged pull request, the
      latest run of every workflow in the reported listing has a required state, going
      by its conclusion or, without one, its status; otherwise every listed run has a
      required conclusion. */
  ghost predicate RunsAllowed(query: RunQuery, required: set<State>, world: World) {
    match world
    case NoBaseline(listing) =>
      listing.Ok? && forall r | r in listing.value :: r.conclusion !in {Failure, Cancelled} && r.conclusion in required
    case Baseline(base, start, listings) =>
      base.Ok? && exists n: nat ::
        && ReportsAt(Initialised(FIVE_BY_THE_MINUTE), query.isPush, |Latest(base.value)|, start, listings, n)
        && LatestAllowed(listings[n].0.value, required)
  }

  lemma ClearsMeans(query: RunQuery, required: set<State>, world: World)
    ensures Clears(query, required, world) <==> RunsAllowed(query, required, world)
  {
    match world
    case NoBaseline(listing) =>
      if listing.Ok? {
        var states := set r | r in listing.value :: r.conclusion;
        assert Reports(FIVE_BY_THE_MINUTE, query.isPush, world, states) <==>
               forall r | r in listing.value :: r.conclusion !in {Failure, Cancelled};
        assert states <= required <==> forall r | r in listing.value :: r.conclusion in required;
      }
    case Baseline(base, start, listings) =>
      if base.Ok? {
        ClearsBaseline(query, required, base.value, start, listings);
      }
  }

  lemma ClearsBaseline(query: RunQuery, required: set<State>, base: seq<Run>, start: int, listings: seq<(Listing, int)>)
    ensures Clears(query, required, Baseline(Ok(base), start, listings)) <==>
            exists n: nat ::
              && ReportsAt(Initialised(FIVE_BY_THE_MINUTE), query.isPush, |Latest(base)|, start, listings, n)
              && LatestAllowed(listings[n].0.value, required)
  {
    var world, l := Baseline(Ok(base), start, listings), Initialised(FIVE_BY_THE_MINUTE);
    forall n: nat | ReportsAt(l, query.isPush, |Latest(base)|, start, listings, n)
      ensures var states := StatesOf(LatestIn(listings[n].0));
              && Reports(FIVE_BY_THE_MINUTE, query.isPush, world, states)
              && (states <= required <==> LatestAllowed(listings[n].0.value, required))
    {
      LatestAllowedIff(listings[n].0.value, required);
    }
  }

  lemma WaitDecided(l: Limits, start: int, polls: seq<Poll<Answer>>)
    requires forall i | 0 <= i < |polls| :: DecidedAt(polls, i)
    ensures var a := AnswerOf(Wait(l, start, polls, 0)); a.Some? ==> Decided(a.value)
    ensures var a := AnswerOf(Wait(l, start, polls, 0));
            (forall i | 0 <= i < |polls| :: polls[i].verdict != Final(Crashed)) ==> a != Some(Crashed)
  {
    WaitMeans(l, start, polls, 0);
    var w := Wait(l, start, polls, 0);
    assert w.Ended? ==> DecidedAt(polls, w.polls - 1);
  }

  predicate DecidedAt(polls: seq<Poll<Answer>>, i: nat) {
    i < |polls| && polls[i].verdict.Final? ==> Decided(polls[i].verdict.result)
  }

  lemma RoundDecided(query: RunQuery, required: set<State>, world: World)
    ensures var v := RoundVerdict(query, required, world); v.Final? ==> Decided(v.result) && v.result.Answer?
  {
  }

  // With which error it fails.

  /** Listing `n` could not be read, and after all before it the loop went on. */
  ghost predicate ListingFailsAt(l: Limits, isPush: bool, expected: nat, start: int, listings: seq<(Listing, int)>,
                                 n: nat)
  {
    && n < |listings| && listings[n].0.Err?
    && forall j | 0 <= j < n ::
         TooFew(isPush, expected, listings[j].0) && !Exceeded(At(l, j), start, listings[j].1)
  }

  /** What AllWorkflowsPassed fails with: a listing that could not be read, or, without a
      last merged pull request, a run that failed or was cancelled. */
  ghost predicate FailsWith(l: Limits, isPush: bool, world: World, e: Error) {
    match world
    case NoBaseline(Err(_)) => e == ApiError
    case NoBaseline(Ok(runs)) => e == WorkflowRunError && exists r | r in runs :: r.conclusion in {Failure, Cancelled}
    case Baseline(Err(_), _, _) => e == ApiError
    case Baseline(Ok(base), start, listings) =>
      e == ApiError && exists n: nat :: ListingFailsAt(Initialised(l), isPush, |Latest(base)|, start, listings, n)
  }

  lemma ListingFails(l: Limits, isPush: bool, expected: nat, start: int, listings: seq<(Listing, int)>, e: Error)
    ensures WaitForListings(l, isPush, expected, start, listings) == Some(Failed(e)) <==>
            e == ApiError && exists n: nat :: ListingFailsAt(l, isPush, expected, start, listings, n)
  {
    var polls := ListingPolls(isPush, expected, listings);
    var w := Wait(l, start, polls, 0);
    WaitMeans(l, start, polls, 0);
    if WaitForListings(l, isPush, expected, start, listings) == Some(Failed(e)) {
      forall j | 0 <= j < w.polls - 1
        ensures TooFew(isPush, expected, listings[j].0) && !Exceeded(At(l, j), start, listings[j].1)
      {
        ListingGoesOn(l, isPush, expected, start, listings, j);
      }
      assert ListingFailsAt(l, isPush, expected, start, listings, w.polls - 1);
    }
    if n: nat :| ListingFailsAt(l, isPush, expected, start, listings, n) {
      forall j | 0 <= j < n ensures GoesOn(l, start, polls, j) {
        ListingGoesOn(l, isPush, expected, start, listings, j);
      }
      WaitGoesOn(l, start, polls, 0, n);
    }
  }

  lemma FailsIff(l: Limits, isPush: bool, world: World, e: Error)
    ensures AllWorkflows(l, isPush, world) == Some(Failed(e)) <==> FailsWith(l, isPush, world, e)
  {
    match world
    case NoBaseline(Ok(runs)) =>
      assert forall i | 0 <= i < |runs| :: runs[i] in runs;
    case Baseline(Ok(base), start, listings) =>
      ListingFails(Initialised(l), isPush, |Latest(base)|, start, listings, e);
    case _ =>
  }

  /** Round `n` fails with this error, and after all before it the wait went on. */
  ghost predicate RoundFailsAt(l: Limits, query: RunQuery, required: set<State>, start: int, rounds: seq<Round>,
                               e: Error, n: nat)
  {
    && n < |rounds| && FailsWith(FIVE_BY_THE_MINUTE, query.isPush, rounds[n].world(query), e)
    && forall j | 0 <= j < n :: WaitsOn(l, query, required, start, rounds[j], j)
  }

  /** In round `n` some reported run has another state, with no time or attempt left. */
  ghost predicate RoundGivesUpAt(l: Limits, query: RunQuery, required: set<State>, start: int, rounds: seq<Round>,
                                 n: nat)
  {
    && n < |rounds| && Exceeded(At(Initialised(l), n), start, rounds[n].checkedAt)
    && (exists states ::
          Reports(FIVE_BY_THE_MINUTE, query.isPush, rounds[n].world(query), states) && !(states <= required))
    && forall j | 0 <= j < n :: WaitsOn(l, query, required, start, rounds[j], j)
  }

  lemma RoundFailure(query: RunQuery, required: set<State>, world: World, e: Error)
    ensures RoundVerdict(query, required, world) == Final(Refused(e)) <==>
            FailsWith(FIVE_BY_THE_MINUTE, query.isPush, world, e)
    ensures e == RetryExceedError ==> !FailsWith(FIVE_BY_THE_MINUTE, query.isPush, world, e)
  {
    FailsIff(FIVE_BY_THE_MINUTE, query.isPush, world, e);
  }

  lemma RoundEnds(l: Limits, query: RunQuery, required: set<State>, start: int, rounds: seq<Round>, e: Error, n: nat)
    ensures var polls := RoundPolls(query, required, rounds);
            && (RoundFailsAt(l, query, required, start, rounds, e, n) <==>
                EndsAt(Initialised(l), start, polls, Refused(e), n))
            && (RoundGivesUpAt(l, query, required, start, rounds, n) <==> GivesUpAt(Initialised(l), start, polls, n))
  {
    if n < |rounds| {
      RoundFailure(query, required, rounds[n].world(query), e);
      RoundMeans(query, required, rounds[n].world(query));
      forall j | 0 <= j < n
        ensures WaitsOn(l, query, required, start, rounds[j], j) <==>
                GoesOn(Initialised(l), start, RoundPolls(query, required, rounds), j)
      {
        RoundMeans(query, required, rounds[j].world(query));
      }
    }
  }

  /** The wait for the workflows of a branch fails with each error exactly when: a round
      fails with it, or a round gives up. */
  lemma PRChecksFail(l: Limits, query: RunQuery, required: set<State>, start: int, rounds: seq<Round>, e: Error)
    ensures AnswerOf(PRChecks(l, query, required, start, rounds)) == Some(Refused(e)) <==>
            if e == RetryExceedError then exists n: nat :: RoundGivesUpAt(l, query, required, start, rounds, n)
            else exists n: nat :: RoundFailsAt(l, query, required, start, rounds, e, n)
  {
    var polls := RoundPolls(query, required, rounds);
    forall n: nat
      ensures RoundFailsAt(l, query, required, start, rounds, e, n) <==>
              EndsAt(Initialised(l), start, polls, Refused(e), n)
      ensures RoundGivesUpAt(l, query, required, start, rounds, n) <==> GivesUpAt(Initialised(l), start, polls, n)
    {
      RoundEnds(l, query, required, start, rounds, e, n);
    }
    if e == RetryExceedError {
      forall i | 0 <= i < |polls| ensures polls[i].verdict != Final(Refused(RetryExceedError)) {
        RoundFailure(query, required, rounds[i].world(query), RetryExceedError);
      }
      WaitGivesUp(Initialised(l), start, polls);
    } else {
      WaitAnswers(Initialised(l), start, polls, Refused(e));
    }
  }

  /** It never returns false without an error. */
  lemma PRChecksDecided(l: Limits, query: RunQuery, required: set<State>, start: int, rounds: seq<Round>)
    ensures var a := AnswerOf(PRChecks(l, query, required, start, rounds));
            a.Some? ==> Decided(a.value) && a.value.Answer?
  {
    var polls := RoundPolls(query, required, rounds);
    forall i | 0 <= i < |polls| ensures DecidedAt(polls, i) && polls[i].verdict != Final(Crashed) {
      RoundDecided(query, required, rounds[i].world(query));
    }
    WaitDecided(Initialised(l), start, polls);
  }

  /** The same listings with their runs in another order. */
  ghost predicate Reordered(a: seq<(Listing, int)>, b: seq<(Listing, int)>) {
    |a| == |b| && forall i | 0 <= i < |a| :: a[i].1 == b[i].1 && SameRuns(a[i].0, b[i].0)
  }

  ghost predicate SameRuns(a: Listing, b: Listing) {
    && (a.Err? ==> b == a)
    && (a.Ok? ==> b.Ok? && DistinctNumbers(a.value) && forall r :: r in a.value <==> r in b.value)
  }

  lemma SameVerdict(isPush: bool, expected: nat, a: Listing, b: Listing)
    requires SameRuns(a, b)
    ensures LatestIn(a) == LatestIn(b) && ListingVerdict(isPush, expected, a) == ListingVerdict(isPush, expected, b)
  {
    if a.Ok? {
      LatestIgnoresOrder(a.value, b.value);
    }
  }

  lemma SamePolls(isPush: bool, expected: nat, a: seq<(Listing, int)>, b: seq<(Listing, int)>)
    requires Reordered(a, b)
    ensures ListingPolls(isPush, expected, a) == ListingPolls(isPush, expected, b)
  {
    forall i | 0 <= i < |a| ensures ListingPolls(isPush, expected, a)[i] == ListingPolls(isPush, expected, b)[i] {
      SameVerdict(isPush, expected, a[i].0, b[i].0);
    }
  }

  lemma SameListings(l: Limits, isPush: bool, expected: nat, start: int, a: seq<(Listing, int)>, b: seq<(Listing, int)>)
    requires Reordered(a, b)
    ensures WaitForListings(l, isPush, expected, start, a) == WaitForListings(l, isPush, expected, start, b)
  {
    SamePolls(isPush, expected, a, b);
    SameOutcome(Wait(l, start, ListingPolls(isPush, expected, a), 0), a, b);
  }

  lemma SameOutcome(w: Waited<Outcome>, a: seq<(Listing, int)>, b: seq<(Listing, int)>)
    requires Reordered(a, b)
    ensures OutcomeOf(w, a) == OutcomeOf(w, b)
  {
    if w.TimedOut? && 0 < w.polls <= |a| {
      SameVerdict(false, 0, a[w.polls - 1].0, b[w.polls - 1].0);
    }
  }

  /** With a last merged pull request the order of the listed runs does not matter. */
  lemma OrderIrrelevant(l: Limits, isPush: bool, runs: Listing, start: int, a: seq<(Listing, int)>,
                        b: seq<(Listing, int)>)
    requires Reordered(a, b)
    ensures AllWorkflows(l, isPush, Baseline(runs, start, a)) == AllWorkflows(l, isPush, Baseline(runs, start, b))
  {
    if runs.Ok? {
      SameListings(Initialised(l), isPush, |Latest(runs.value)|, start, a, b);
    }
  }

  // ---------- how often they poll ----------

  /** Every round of a wait checks its limits. */
  ghost predicate AlwaysLimited<R>(polls: seq<Poll<R>>) {
    forall p | p in polls && p.verdict.Again? :: p.verdict.limited
  }

  lemma {:induction false} NoneUnlimited<R>(polls: seq<Poll<R>>, n: nat)
    requires AlwaysLimited(polls) && n <= |polls|
    ensures Unlimited(polls, n) == 0
  {
    if n > 0 {
      NoneUnlimited(polls, n - 1);
      assert polls[n - 1] in polls;
    }
  }

  /** No poll is still under way. */
  ghost predicate Answered<R>(polls: seq<Poll<R>>) {
    forall p | p in polls :: !p.verdict.Open?
  }

  /** The polls of a wait that always checks its limits: bounded by its attempts, and
      by the pauses that fit into its waiting time; and it does end. */
  lemma LimitedPolls<R>(l: Limits, start: int, polls: seq<Poll<R>>)
    requires AlwaysLimited(polls)
    ensures var w := Wait(l, start, polls, 0);
            && (!w.Waiting? ==> w.polls <= |polls| && w.polls <= Max(1, l.maxAttempts - l.attempts + 1))
            && (!w.Waiting? && l.pauseTime > 0 && l.maxWaitTime >= 0 && Paused(l, start, polls) ==>
                  w.polls - 1 <= l.maxWaitTime / l.pauseTime + 1)
            && (w.Waiting? && Answered(polls) ==> |polls| < Max(1, l.maxAttempts - l.attempts + 1))
  {
    var w := Wait(l, start, polls, 0);
    PollsBounded(l, start, polls);
    NoneUnlimited(polls, if w.Waiting? then |polls| else w.polls);
    if !w.Waiting? && l.pauseTime > 0 && l.maxWaitTime >= 0 && Paused(l, start, polls) {
      SleepsBounded(l, start, polls);
      NoneUnlimited(polls, w.polls - 1);
    }
  }

  /** How many listings of workflow runs AllWorkflowsPassed has asked for: those of the
      last merged pull request, and one per poll. */
  function Listed(l: Limits, isPush: bool, world: World): nat {
    match world
    case NoBaseline(_) => 1
    case Baseline(Err(_), _, _) => 1
    case Baseline(Ok(runs), start, listings) =>
      var w := Wait(Initialised(l), start, ListingPolls(isPush, |Latest(runs)|, listings), 0);
      1 + if w.Waiting? then |listings| else w.polls
  }

  lemma ListedBounded(l: Limits, isPush: bool, world: World)
    ensures Listed(l, isPush, world) <= 1 + Max(1, Initialised(l).maxAttempts - l.attempts + 1)
  {
    if world.Baseline? && world.runs.Ok? {
      LimitedPolls(Initialised(l), world.start, ListingPolls(isPush, |Latest(world.runs.value)|, world.listings));
    }
  }

  /** The listings asked for in the first `n` rounds. */
  function ListedInRounds(query: RunQuery, rounds: seq<Round>, n: nat): nat
    requires n <= |rounds|
  {
    if n == 0 then 0
    else ListedInRounds(query, rounds, n - 1) + Listed(FIVE_BY_THE_MINUTE, query.isPush, rounds[n - 1].world(query))
  }

  lemma {:induction false} SevenEach(query: RunQuery, rounds: seq<Round>, n: nat)
    requires n <= |rounds|
    ensures ListedInRounds(query, rounds, n) <= 7 * n
  {
    if n > 0 {
      SevenEach(query, rounds, n - 1);
      ListedBounded(FIVE_BY_THE_MINUTE, query.isPush, rounds[n - 1].world(query));
    }
  }

  lemma RoundsLimited(query: RunQuery, required: set<State>, rounds: seq<Round>)
    ensures AlwaysLimited(RoundPolls(query, required, rounds))
  {
    var polls := RoundPolls(query, required, rounds);
    forall p | p in polls ensures p.verdict != Again(false) {
      var i :| 0 <= i < |polls| && polls[i] == p;
      RoundMeans(query, required, rounds[i].world(query));
    }
  }

  /** WaitForPRChecksToPass is bounded in rounds and in sleeps, asks for at most seven
      listings in each round, and does end once that many rounds were answered. */
  lemma PRChecksBounded(l: Limits, query: RunQuery, required: set<State>, start: int, rounds: seq<Round>)
    ensures var w, i := PRChecks(l, query, required, start, rounds), Initialised(l);
            var polls := RoundPolls(query, required, rounds);
            && (!w.Waiting? ==>
                  && w.polls <= |rounds|
                  && w.polls <= Max(1, i.maxAttempts - l.attempts + 1)
                  && ListedInRounds(query, rounds, w.polls) <= 7 * w.polls)
            && (!w.Waiting? && i.pauseTime > 0 && Paused(i, start, polls) ==>
                w.polls - 1 <= i.maxWaitTime / i.pauseTime + 1)
            && (w.Waiting? && Answered(polls) ==> |rounds| < Max(1, i.maxAttempts - l.attempts + 1))
  {
    var w := PRChecks(l, query, required, start, rounds);
    RoundsLimited(query, required, rounds);
    LimitedPolls(Initialised(l), start, RoundPolls(query, required, rounds));
    if !w.Waiting? {
      SevenEach(query, rounds, w.polls);
    }
  }

  // ---------- an updated branch ----------

  ghost predicate ShowsOld(pulls: Pulls, pr: PullRequest, fetches: seq<Fetch>, n: nat) {
    n <= |fetches| && forall j | 0 <= j < n :: ShaOf(Fetched(pulls, pr.number, fetches[j].call)) == pr.headSha
  }

  lemma PollShows(pulls: Pulls, pr: PullRequest, fetches: seq<Fetch>, i: nat)
    requires i < |fetches|
    ensures var fetched := Fetched(pulls, pr.number, fetches[i].call);
            FetchPolls(pulls, pr, fetches)[i].verdict ==
            if ShaOf(fetched) == pr.headSha then Again(true) else Final(fetched)
  {
  }

  lemma GoesOnShowsOld(l: Limits, pulls: Pulls, pr: PullRequest, start: int, fetches: seq<Fetch>, n: nat)
    requires n <= |fetches| && forall j | 0 <= j < n :: GoesOn(l, start, FetchPolls(pulls, pr, fetches), j)
    ensures ShowsOld(pulls, pr, fetches, n)
  {
    forall j | 0 <= j < n ensures ShaOf(Fetched(pulls, pr.number, fetches[j].call)) == pr.headSha {
      assert GoesOn(l, start, FetchPolls(pulls, pr, fetches), j);
    }
  }

  /** The head differs for the first time in fetch `n`. */
  ghost predicate ShowsNewAt(pulls: Pulls, pr: PullRequest, fetches: seq<Fetch>, updated: Option<PullRequest>, n: nat) {
    && ShowsOld(pulls, pr, fetches, n) && n < |fetches|
    && Fetched(pulls, pr.number, fetches[n].call) == updated && ShaOf(updated) != pr.headSha
  }

  /** The first `n` fetches show the old head, the last of them this pull request. */
  ghost predicate LastShown(pulls: Pulls, pr: PullRequest, fetches: seq<Fetch>, updated: Option<PullRequest>, n: nat) {
    && ShowsOld(pulls, pr, fetches, n) && n > 0
    && Fetched(pulls, pr.number, fetches[n - 1].call) == updated && ShaOf(updated) == pr.headSha
  }

  /** The wait ends with the first fetch whose head differs, failed fetches counting
      as an empty head; at its limits it returns its last fetch with an error. */
  lemma RebaseMeans(l: Limits, pulls: Pulls, pr: PullRequest, start: int, fetches: seq<Fetch>)
    ensures match RebaseResult(RebaseWait(l, pulls, pr, start, fetches), pulls, pr, fetches)
            case None => ShowsOld(pulls, pr, fetches, |fetches|)
            case Some((updated, None)) => exists n: nat :: ShowsNewAt(pulls, pr, fetches, updated, n)
            case Some((updated, Some(error))) =>
              error == RetryExceedError && exists n: nat :: LastShown(pulls, pr, fetches, updated, n)
  {
    RebaseCases(l, pulls, pr, start, fetches);
  }

  lemma RebaseCases(l: Limits, pulls: Pulls, pr: PullRequest, start: int, fetches: seq<Fetch>)
    ensures match RebaseWait(l, pulls, pr, start, fetches)
            case Waiting => ShowsOld(pulls, pr, fetches, |fetches|)
            case Ended(updated, n) => n > 0 && ShowsNewAt(pulls, pr, fetches, updated, n - 1)
            case TimedOut(n) =>
              0 < n <= |fetches| && LastShown(pulls, pr, fetches, Fetched(pulls, pr.number, fetches[n - 1].call), n)
  {
    match RebaseWait(l, pulls, pr, start, fetches) {
      case Waiting => RebaseWaits(Initialised(l), pulls, pr, start, fetches);
      case Ended(updated, n) => RebaseEnds(Initialised(l), pulls, pr, start, fetches, updated, n);
      case TimedOut(n) => RebaseGivesUp(Initialised(l), pulls, pr, start, fetches, n);
    }
  }

  lemma RebaseWaits(i: Limits, pulls: Pulls, pr: PullRequest, start: int, fetches: seq<Fetch>)
    requires Wait(i, start, FetchPolls(pulls, pr, fetches), 0).Waiting?
    ensures ShowsOld(pulls, pr, fetches, |fetches|)
  {
    var polls := FetchPolls(pulls, pr, fetches);
    WaitMeans(i, start, polls, 0);
    var n :| 0 <= n <= |polls| && StillAt(i, start, polls, 0, n);
    assert n == |polls|;
    GoesOnShowsOld(i, pulls, pr, start, fetches, n);
  }

  lemma RebaseEnds(i: Limits, pulls: Pulls, pr: PullRequest, start: int, fetches: seq<Fetch>,
                   updated: Option<PullRequest>, n: nat)
    requires Wait(i, start, FetchPolls(pulls, pr, fetches), 0) == Ended(updated, n)
    ensures n > 0 && ShowsNewAt(pulls, pr, fetches, updated, n - 1)
  {
    WaitMeans(i, start, FetchPolls(pulls, pr, fetches), 0);
    GoesOnShowsOld(i, pulls, pr, start, fetches, n - 1);
    PollShows(pulls, pr, fetches, n - 1);
  }

  lemma RebaseGivesUp(i: Limits, pulls: Pulls, pr: PullRequest, start: int, fetches: seq<Fetch>, n: nat)
    requires Wait(i, start, FetchPolls(pulls, pr, fetches), 0) == TimedOut(n)
    ensures 0 < n <= |fetches| && LastShown(pulls, pr, fetches, Fetched(pulls, pr.number, fetches[n - 1].call), n)
  {
    WaitMeans(i, start, FetchPolls(pulls, pr, fetches), 0);
    GoesOnShowsOld(i, pulls, pr, start, fetches, n - 1);
    PollShows(pulls, pr, fetches, n - 1);
    assert ShowsOld(pulls, pr, fetches, n);
  }

  /** A reported update is a new head exactly when the pull request could be fetched. */
  lemma ReportedRebase(l: Limits, pulls: Pulls, pr: PullRequest, start: int, fetches: seq<Fetch>,
                       updated: Option<PullRequest>)
    requires RebaseResult(RebaseWait(l, pulls, pr, start, fetches), pulls, pr, fetches) == Some((updated, None))
    ensures updated.Some? ==> updated.value.headSha != pr.headSha
    ensures updated.None? ==> pr.headSha != []
  {
    RebaseMeans(l, pulls, pr, start, fetches);
  }

  /** A first fetch that fails is reported as an update at once, unless the old head
      was empty too. */
  lemma FailedFetchCountsAsRebase(l: Limits, pulls: Pulls, pr: PullRequest, start: int, fetches: seq<Fetch>)
    requires fetches != [] && Fetched(pulls, pr.number, fetches[0].call).None?
    ensures RebaseResult(RebaseWait(l, pulls, pr, start, fetches), pulls, pr, fetches) == Some((None, None)) <==>
            pr.headSha != []
  {
    if pr.headSha == [] {
      RebaseMeans(l, pulls, pr, start, fetches);
    }
  }

  lemma RebaseBounded(l: Limits, pulls: Pulls, pr: PullRequest, start: int, fetches: seq<Fetch>)
    ensures var w, i := RebaseWait(l, pulls, pr, start, fetches), Initialised(l);
            && (!w.Waiting? ==> w.polls <= Max(1, i.maxAttempts - l.attempts + 1))
            && (!w.Waiting? && i.pauseTime > 0 && Paused(i, start, FetchPolls(pulls, pr, fetches)) ==>
                  w.polls - 1 <= i.maxWaitTime / i.pauseTime + 1)
            && (w.Waiting? ==> |fetches| < Max(1, i.maxAttempts - l.attempts + 1))
  {
    LimitedPolls(Initialised(l), start, FetchPolls(pulls, pr, fetches));
  }

  // ---------- the status checks of a pull request ----------

  /** The pull request, the protection of its base branch, and the workflow runs and
      statuses of its head could all be read. */
  ghost predicate Readable(pulls: Pulls, number: nat, s: Snapshot) {
    var pr := Fetched(pulls, number, s.call);
    && pr.Some? && !s.protection(pr.value.baseRef).ProtectionError?
    && (exists states ::
          Reports(SIX_EVERY_TWENTY_SECONDS, false, s.workflows(RunQuery(false, [], pr.value.headSha)), states))
    && Collected(s.statuses(pr.value.headSha)).Some?
  }

  ghost predicate Covered(stats: seq<Status>, required: seq<string>) {
    forall n | n in required :: exists x | x in stats :: x.name == n
  }

  /** The first status that is not finished is under way. */
  ghost predicate UnderWay(stats: seq<Status>) {
    exists i ::
      && 0 <= i < |stats| && stats[i].state in {NoState, InProgress, Queued}
      && forall j | 0 <= j < i :: Finished(stats[j].state)
  }

  function StatsOf(pulls: Pulls, number: nat, s: Snapshot): seq<Status> {
    var pr := Fetched(pulls, number, s.call);
    var statuses := if pr.Some? then Collected(s.statuses(pr.value.headSha)) else None;
    if statuses.Some? then statuses.value else []
  }

  function RequiredOf(pulls: Pulls, number: nat, s: Snapshot): seq<string> {
    var pr := Fetched(pulls, number, s.call);
    if pr.Some? then Required(s.protection(pr.value.baseRef)) else []
  }

  /** What must hold of a snapshot that passes. */
  ghost predicate Ready(pulls: Pulls, number: nat, s: Snapshot) {
    && Readable(pulls, number, s)
    && AllFinished(StatsOf(pulls, number, s)) && Covered(StatsOf(pulls, number, s), RequiredOf(pulls, number, s))
  }

  /** A snapshot after which the wait goes on: a status is under way, whatever the
      limits; or all are finished, a required one is missing, and there is time left. */
  ghost predicate Unready(l: Limits, pulls: Pulls, number: nat, start: int, s: Snapshot, i: nat) {
    && Readable(pulls, number, s)
    && (|| UnderWay(StatsOf(pulls, number, s))
        || (&& AllFinished(StatsOf(pulls, number, s))
            && !Covered(StatsOf(pulls, number, s), RequiredOf(pulls, number, s))
            && !Exceeded(At(Initialised(l), i), start, s.checkedAt)))
  }

  /** The first status that is not finished decides, whatever the others are. */
  lemma FirstUnfinishedDecides(stats: seq<Status>, required: seq<string>, i: nat)
    requires i < |stats| && !Finished(stats[i].state) && forall j | 0 <= j < i :: Finished(stats[j].state)
    ensures StatusesVerdict(stats, required) ==
            if stats[i].state in {NoState, InProgress, Queued} then Again(false)
            else Final(Refused(StatusCheckError))
  {
    var f := FirstUnfinished(stats, 0);
    assert f == i;
  }

  /** With all statuses finished, the required names decide. */
  lemma AllFinishedDecides(stats: seq<Status>, required: seq<string>)
    requires AllFinished(stats)
    ensures StatusesVerdict(stats, required) == if Covered(stats, required) then Final(PASSED) else Again(true)
  {
    assert forall j | 0 <= j < |stats| :: stats[j] in stats;
    assert FirstUnfinished(stats, 0) == |stats|;
    FinishedNamesMeans(stats);
    Compare.MissingMeans(FinishedNames(stats), required);
  }

  lemma StatusesMean(stats: seq<Status>, required: seq<string>)
    ensures StatusesVerdict(stats, required) == Final(PASSED) <==> AllFinished(stats) && Covered(stats, required)
    ensures StatusesVerdict(stats, required) == Again(true) <==> AllFinished(stats) && !Covered(stats, required)
    ensures StatusesVerdict(stats, required) == Again(false) <==> UnderWay(stats)
  {
    if AllFinished(stats) {
      AllFinishedDecides(stats, required);
      assert forall j | 0 <= j < |stats| :: stats[j] in stats;
    } else {
      var f := FirstUnfinished(stats, 0);
      assert f == |stats| ==> AllFinished(stats);
      FirstUnfinishedDecides(stats, required, f);
    }
  }

  /** Runs are found exactly when some states are reported. */
  lemma FoundIff(world: World)
    ensures var out := AllWorkflows(SIX_EVERY_TWENTY_SECONDS, false, world);
            out.Some? && out.value.Found? <==> exists states :: Reports(SIX_EVERY_TWENTY_SECONDS, false, world, states)
  {
    forall states {
      ReportsIff(SIX_EVERY_TWENTY_SECONDS, false, world, states);
    }
  }

  lemma SnapshotStats(pulls: Pulls, number: nat, s: Snapshot)
    ensures var v := SnapshotVerdict(pulls, number, s);
            if Readable(pulls, number, s) then
              v == StatusesVerdict(StatsOf(pulls, number, s), RequiredOf(pulls, number, s))
            else v != Final(PASSED) && !v.Again?
  {
    var pr := Fetched(pulls, number, s.call);
    if pr.Some? {
      FoundIff(s.workflows(HeadQuery(pr.value)));
    }
  }

  lemma SnapshotMeans(pulls: Pulls, number: nat, s: Snapshot)
    ensures var v := SnapshotVerdict(pulls, number, s);
            var stats, required := StatsOf(pulls, number, s), RequiredOf(pulls, number, s);
            && (v == Final(PASSED) <==> Ready(pulls, number, s))
            && (v == Again(true) <==> Readable(pulls, number, s) && AllFinished(stats) && !Covered(stats, required))
            && (v == Again(false) <==> Readable(pulls, number, s) && UnderWay(stats))
  {
    StatusesMean(StatsOf(pulls, number, s), RequiredOf(pulls, number, s));
    SnapshotStats(pulls, number, s);
  }

  ghost predicate ReadyAt(l: Limits, pulls: Pulls, number: nat, start: int, snapshots: seq<Snapshot>, n: nat) {
    && n < |snapshots| && Ready(pulls, number, snapshots[n])
    && forall j | 0 <= j < n :: Unready(l, pulls, number, start, snapshots[j], j)
  }

  /** All but the statuses could be read, and a page of check runs failed. */
  ghost predicate RunPageFails(pulls: Pulls, number: nat, s: Snapshot) {
    var pr := Fetched(pulls, number, s.call);
    && pr.Some? && !s.protection(pr.value.baseRef).ProtectionError?
    && (exists states ::
          Reports(SIX_EVERY_TWENTY_SECONDS, false, s.workflows(RunQuery(false, [], pr.value.headSha)), states))
    && exists p | p in s.statuses(pr.value.headSha).runPages :: s.statuses(pr.value.headSha).runs(p).items.None?
  }

  ghost predicate BreaksAt(l: Limits, pulls: Pulls, number: nat, start: int, snapshots: seq<Snapshot>, n: nat) {
    && n < |snapshots| && RunPageFails(pulls, number, snapshots[n])
    && forall j | 0 <= j < n :: Unready(l, pulls, number, start, snapshots[j], j)
  }

  lemma SnapshotBreaks(pulls: Pulls, number: nat, s: Snapshot)
    ensures SnapshotVerdict(pulls, number, s) == Final(Crashed) <==> RunPageFails(pulls, number, s)
  {
    var pr := Fetched(pulls, number, s.call);
    if pr.Some? {
      FoundIff(s.workflows(HeadQuery(pr.value)));
    }
  }

  lemma SnapshotGoesOn(l: Limits, pulls: Pulls, number: nat, start: int, snapshots: seq<Snapshot>, j: nat)
    requires j < |snapshots|
    ensures var verdict := SnapshotVerdict(pulls, number, snapshots[j]);
            && (verdict == Final(PASSED) <==> Ready(pulls, number, snapshots[j]))
            && (verdict == Final(Crashed) <==> RunPageFails(pulls, number, snapshots[j]))
            && (Unready(l, pulls, number, start, snapshots[j], j) <==>
                GoesOn(Initialised(l), start, SnapshotPolls(pulls, number, snapshots), j))
  {
    SnapshotMeans(pulls, number, snapshots[j]);
    SnapshotBreaks(pulls, number, snapshots[j]);
  }

  lemma SnapshotEnds(l: Limits, pulls: Pulls, number: nat, start: int, snapshots: seq<Snapshot>, n: nat)
    ensures var polls := SnapshotPolls(pulls, number, snapshots);
            && (ReadyAt(l, pulls, number, start, snapshots, n) <==> EndsAt(Initialised(l), start, polls, PASSED, n))
            && (BreaksAt(l, pulls, number, start, snapshots, n) <==> EndsAt(Initialised(l), start, polls, Crashed, n))
  {
    if n < |snapshots| {
      SnapshotGoesOn(l, pulls, number, start, snapshots, n);
      forall j | 0 <= j < n
        ensures Unready(l, pulls, number, start, snapshots[j], j) <==>
                GoesOn(Initialised(l), start, SnapshotPolls(pulls, number, snapshots), j)
      {
        SnapshotGoesOn(l, pulls, number, start, snapshots, j);
      }
    }
  }

  /** The wait passes exactly when some snapshot is ready and after every earlier one
      it went on. */
  lemma StatusChecksPass(l: Limits, pulls: Pulls, number: nat, start: int, snapshots: seq<Snapshot>)
    ensures AnswerOf(StatusChecks(l, pulls, number, start, snapshots)) == Some(PASSED) <==>
            exists n: nat :: ReadyAt(l, pulls, number, start, snapshots, n)
  {
    var polls := SnapshotPolls(pulls, number, snapshots);
    WaitAnswers(Initialised(l), start, polls, PASSED);
    forall n: nat
      ensures ReadyAt(l, pulls, number, start, snapshots, n) <==> EndsAt(Initialised(l), start, polls, PASSED, n)
    {
      SnapshotEnds(l, pulls, number, start, snapshots, n);
    }
  }

  /** It crashes exactly when a page of check runs failed in some snapshot and after every
      earlier one it went on. */
  lemma StatusChecksCrash(l: Limits, pulls: Pulls, number: nat, start: int, snapshots: seq<Snapshot>)
    ensures AnswerOf(StatusChecks(l, pulls, number, start, snapshots)) == Some(Crashed) <==>
            exists n: nat :: BreaksAt(l, pulls, number, start, snapshots, n)
  {
    var polls := SnapshotPolls(pulls, number, snapshots);
    WaitAnswers(Initialised(l), start, polls, Crashed);
    forall n: nat
      ensures BreaksAt(l, pulls, number, start, snapshots, n) <==> EndsAt(Initialised(l), start, polls, Crashed, n)
    {
      SnapshotEnds(l, pulls, number, start, snapshots, n);
    }
  }

  /** The first status that is not finished is not under way either. */
  ghost predicate Stuck(stats: seq<Status>) {
    exists i ::
      && 0 <= i < |stats| && !Finished(stats[i].state) && stats[i].state !in {NoState, InProgress, Queued}
      && forall j | 0 <= j < i :: Finished(stats[j].state)
  }

  /** What a snapshot fails with: the pull request or the protection could not be fetched,
      its workflow runs fail it, or a status is neither finished nor under way. */
  ghost predicate SnapshotFails(pulls: Pulls, number: nat, s: Snapshot, e: Error) {
    var pr := Fetched(pulls, number, s.call);
    if pr.None? || s.protection(pr.value.baseRef).ProtectionError? then e == ApiError
    else
      || FailsWith(SIX_EVERY_TWENTY_SECONDS, false, s.workflows(RunQuery(false, [], pr.value.headSha)), e)
      || (e == StatusCheckError && Readable(pulls, number, s) && Stuck(StatsOf(pulls, number, s)))
  }

  lemma StatusesFail(stats: seq<Status>, required: seq<string>, e: Error)
    ensures StatusesVerdict(stats, required) == Final(Refused(e)) <==> e == StatusCheckError && Stuck(stats)
  {
    var f := FirstUnfinished(stats, 0);
    if f < |stats| {
      FirstUnfinishedDecides(stats, required, f);
    }
    if i :| 0 <= i < |stats| && !Finished(stats[i].state) && stats[i].state !in {NoState, InProgress, Queued}
            && forall j | 0 <= j < i :: Finished(stats[j].state) {
      FirstUnfinishedDecides(stats, required, i);
    }
  }

  lemma SnapshotFailure(pulls: Pulls, number: nat, s: Snapshot, e: Error)
    ensures SnapshotVerdict(pulls, number, s) == Final(Refused(e)) <==> SnapshotFails(pulls, number, s, e)
    ensures e == RetryExceedError ==> !SnapshotFails(pulls, number, s, e)
  {
    var pr := Fetched(pulls, number, s.call);
    if pr.Some? {
      FailsIff(SIX_EVERY_TWENTY_SECONDS, false, s.workflows(HeadQuery(pr.value)), e);
      FoundIff(s.workflows(HeadQuery(pr.value)));
      StatusesFail(StatsOf(pulls, number, s), RequiredOf(pulls, number, s), e);
    }
  }

  /** Snapshot `n` fails with this error, and after all before it the wait went on. */
  ghost predicate FailsAt(l: Limits, pulls: Pulls, number: nat, start: int, snapshots: seq<Snapshot>, e: Error,
                          n: nat)
  {
    && n < |snapshots| && SnapshotFails(pulls, number, snapshots[n], e)
    && forall j | 0 <= j < n :: Unready(l, pulls, number, start, snapshots[j], j)
  }

  /** In snapshot `n` all statuses are finished and a required name is missing, with no
      time or attempt left. */
  ghost predicate StopsAt(l: Limits, pulls: Pulls, number: nat, start: int, snapshots: seq<Snapshot>, n: nat) {
    && n < |snapshots| && Exceeded(At(Initialised(l), n), start, snapshots[n].checkedAt)
    && Readable(pulls, number, snapshots[n]) && AllFinished(StatsOf(pulls, number, snapshots[n]))
    && !Covered(StatsOf(pulls, number, snapshots[n]), RequiredOf(pulls, number, snapshots[n]))
    && forall j | 0 <= j < n :: Unready(l, pulls, number, start, snapshots[j], j)
  }

  lemma SnapshotStops(l: Limits, pulls: Pulls, number: nat, start: int, snapshots: seq<Snapshot>, e: Error, n: nat)
    ensures var polls := SnapshotPolls(pulls, number, snapshots);
            && (FailsAt(l, pulls, number, start, snapshots, e, n) <==>
                EndsAt(Initialised(l), start, polls, Refused(e), n))
            && (StopsAt(l, pulls, number, start, snapshots, n) <==> GivesUpAt(Initialised(l), start, polls, n))
  {
    if n < |snapshots| {
      SnapshotFailure(pulls, number, snapshots[n], e);
      SnapshotMeans(pulls, number, snapshots[n]);
      forall j | 0 <= j < n
        ensures Unready(l, pulls, number, start, snapshots[j], j) <==>
                GoesOn(Initialised(l), start, SnapshotPolls(pulls, number, snapshots), j)
      {
        SnapshotGoesOn(l, pulls, number, start, snapshots, j);
      }
    }
  }

  /** The wait for the status checks fails with each error exactly when: a snapshot fails
      with it, or a snapshot stops the wait at its limits. */
  lemma StatusChecksFail(l: Limits, pulls: Pulls, number: nat, start: int, snapshots: seq<Snapshot>, e: Error)
    ensures AnswerOf(StatusChecks(l, pulls, number, start, snapshots)) == Some(Refused(e)) <==>
            if e == RetryExceedError then exists n: nat :: StopsAt(l, pulls, number, start, snapshots, n)
            else exists n: nat :: FailsAt(l, pulls, number, start, snapshots, e, n)
  {
    var polls := SnapshotPolls(pulls, number, snapshots);
    forall n: nat
      ensures FailsAt(l, pulls, number, start, snapshots, e, n) <==>
              EndsAt(Initialised(l), start, polls, Refused(e), n)
      ensures StopsAt(l, pulls, number, start, snapshots, n) <==> GivesUpAt(Initialised(l), start, polls, n)
    {
      SnapshotStops(l, pulls, number, start, snapshots, e, n);
    }
    if e == RetryExceedError {
      forall i | 0 <= i < |polls| ensures polls[i].verdict != Final(Refused(RetryExceedError)) {
        SnapshotFailure(pulls, number, snapshots[i], RetryExceedError);
      }
      WaitGivesUp(Initialised(l), start, polls);
    } else {
      WaitAnswers(Initialised(l), start, polls, Refused(e));
    }
  }

  lemma StatusChecksDecided(l: Limits, pulls: Pulls, number: nat, start: int, snapshots: seq<Snapshot>)
    ensures var a := AnswerOf(StatusChecks(l, pulls, number, start, snapshots));
            a.Some? ==> Decided(a.value)
  {
    var polls := SnapshotPolls(pulls, number, snapshots);
    forall i | 0 <= i < |polls| ensures DecidedAt(polls, i) {
      SnapshotDecided(pulls, number, snapshots[i]);
    }
    WaitDecided(Initialised(l), start, polls);
  }

  lemma SnapshotDecided(pulls: Pulls, number: nat, s: Snapshot)
    ensures var v := SnapshotVerdict(pulls, number, s); v.Final? ==> Decided(v.result)
  {
  }

  /** The wait for a nil pull request asks for number 0: its first round fails. */
  lemma NilStatusChecks(l: Limits, pulls: Pulls, start: int, snapshots: seq<Snapshot>)
    ensures AnswerOf(StatusChecks(l, pulls, 0, start, snapshots)) ==
            if snapshots == [] then None else Some(Refused(ApiError))
  {
  }

  /** Some page has a good commit status or check run of this name. */
  ghost predicate OnPages(l: StatusPages, n: string) {
    || (exists p, x | p in l.combinedPages && x in Items(l.combined(p)) :: x.name == n && GoodStatus(x))
    || (exists p, r | p in l.runPages && r in Items(l.runs(p)) :: r.name == n && GoodRun(r))
  }

  /** The pages of both listings that a snapshot saw are good, and every name that the
      protection of the fetched base branch requires is on them. */
  ghost predicate PagesReady(pulls: Pulls, number: nat, s: Snapshot) {
    var pr := Fetched(pulls, number, s.call);
    pr.Some? &&
    var l := s.statuses(pr.value.headSha);
    && AllGood(l)
    && match s.protection(pr.value.baseRef)
       case Protected(Some(names)) => forall n | n in names :: OnPages(l, n)
       case Protected(None) => true
       case Unprotected => true
       case ProtectionError => false
  }

  /** A name among the statuses is that of a commit status or a check run. */
  lemma NamedIff(l: StatusPages, n: string)
    requires AllGood(l) && Collected(l).Some?
    ensures (exists x | x in Collected(l).value :: x.name == n) <==> OnPages(l, n)
  {
    if x :| x in Collected(l).value && x.name == n {
      NamedOnPages(l, x);
    }
    if OnPages(l, n) {
      var x := OnPagesNamed(l, n);
    }
  }

  lemma NamedOnPages(l: StatusPages, x: Status)
    requires AllGood(l) && Collected(l).Some? && x in Collected(l).value
    ensures OnPages(l, x.name)
  {
    AllListed(l, x);
    if !exists p | p in l.combinedPages :: x in Items(l.combined(p)) {
      var p, r :| p in l.runPages && r in Items(l.runs(p)) && OfCheckRun(r) == x;
      assert r.name == x.name && GoodRun(r);
    }
  }

  lemma OnPagesNamed(l: StatusPages, n: string) returns (x: Status)
    requires Collected(l).Some? && OnPages(l, n)
    ensures x in Collected(l).value && x.name == n
  {
    if p, y :| p in l.combinedPages && y in Items(l.combined(p)) && y.name == n && GoodStatus(y) {
      x := y;
    } else {
      var p, r :| p in l.runPages && r in Items(l.runs(p)) && r.name == n && GoodRun(r);
      x := OfCheckRun(r);
    }
    AllListed(l, x);
  }

  lemma CoveredIff(l: StatusPages, names: seq<string>)
    requires AllGood(l) && Collected(l).Some?
    ensures Covered(Collected(l).value, names) <==> forall n | n in names :: OnPages(l, n)
  {
    forall n | n in names {
      NamedIff(l, n);
    }
  }

  /** A snapshot that could be read is ready exactly when its pages are: no check run page
      failed, every commit status of every page is finished, every check run is finished
      with no conclusion but a good one, and every required name is among them. */
  lemma ReadyPages(pulls: Pulls, number: nat, s: Snapshot)
    ensures Ready(pulls, number, s) <==> Readable(pulls, number, s) && PagesReady(pulls, number, s)
  {
    var pr := Fetched(pulls, number, s.call);
    if Readable(pulls, number, s) {
      var l := s.statuses(pr.value.headSha);
      FinishedIff(l);
      if AllGood(l) {
        CoveredIff(l, RequiredOf(pulls, number, s));
      }
    }
  }

  /** A wait that passes ends with a snapshot whose pages are ready. */
  lemma PassedPages(l: Limits, pulls: Pulls, number: nat, start: int, snapshots: seq<Snapshot>)
    requires AnswerOf(StatusChecks(l, pulls, number, start, snapshots)) == Some(PASSED)
    ensures exists s | s in snapshots :: PagesReady(pulls, number, s)
  {
    StatusChecksPass(l, pulls, number, start, snapshots);
    var n: nat :| ReadyAt(l, pulls, number, start, snapshots, n);
    ReadyPages(pulls, number, snapshots[n]);
    assert snapshots[n] in snapshots;
  }

  /** Of the first rounds, those later than whole pauses fit into the waiting time had a
      status under way. */
  ghost predicate LateUnderWay(i: Limits, pulls: Pulls, number: nat, snapshots: seq<Snapshot>, n: nat)
    requires i.pauseTime > 0 && n <= |snapshots|
  {
    forall j | 0 <= j < n :: UnderWay(StatsOf(pulls, number, snapshots[j])) || j <= i.maxWaitTime / i.pauseTime
  }

  lemma InTimeUnderWay(i: Limits, pulls: Pulls, number: nat, snapshots: seq<Snapshot>, n: nat)
    requires i.pauseTime > 0 && n <= |snapshots| && InTime(i, SnapshotPolls(pulls, number, snapshots), n)
    ensures LateUnderWay(i, pulls, number, snapshots, n)
  {
    forall j | 0 <= j < n && j > i.maxWaitTime / i.pauseTime ensures UnderWay(StatsOf(pulls, number, snapshots[j])) {
      assert SnapshotPolls(pulls, number, snapshots)[j].verdict == Again(false);
      SnapshotMeans(pulls, number, snapshots[j]);
    }
  }

  /** Rounds with a status under way come on top of the rounds that the attempts allow
      and of those that the waiting time allows; and with enough rounds answered the
      wait does end. */
  lemma StatusChecksBounded(l: Limits, pulls: Pulls, number: nat, start: int, snapshots: seq<Snapshot>)
    ensures var w, i := StatusChecks(l, pulls, number, start, snapshots), Initialised(l);
            var polls := SnapshotPolls(pulls, number, snapshots);
            && (!w.Waiting? ==>
                  && 0 < w.polls <= |snapshots|
                  && w.polls <= PollBound(i, Unlimited(polls, w.polls)))
            && (!w.Waiting? && i.pauseTime > 0 && Paused(i, start, polls) ==>
                  && w.polls - 1 <= Unlimited(polls, w.polls - 1) + i.maxWaitTime / i.pauseTime + 1
                  && LateUnderWay(i, pulls, number, snapshots, w.polls - 1))
            && (w.Waiting? && Answered(polls) ==> |snapshots| < PollBound(i, Unlimited(polls, |snapshots|)))
  {
    var w, i := StatusChecks(l, pulls, number, start, snapshots), Initialised(l);
    var polls := SnapshotPolls(pulls, number, snapshots);
    PollsBounded(i, start, polls);
    WaitMeans(i, start, polls, 0);
    if !w.Waiting? && i.pauseTime > 0 && Paused(i, start, polls) {
      StatusSleepsBounded(i, pulls, number, start, snapshots);
    }
  }

  lemma StatusSleepsBounded(i: Limits, pulls: Pulls, number: nat, start: int, snapshots: seq<Snapshot>)
    requires i.pauseTime > 0 && i.maxWaitTime >= 0 && Paused(i, start, SnapshotPolls(pulls, number, snapshots))
    ensures var polls := SnapshotPolls(pulls, number, snapshots);
            var w := Wait(i, start, polls, 0);
            !w.Waiting? ==>
              && 0 < w.polls <= |snapshots|
              && w.polls - 1 <= Unlimited(polls, w.polls - 1) + i.maxWaitTime / i.pauseTime + 1
              && LateUnderWay(i, pulls, number, snapshots, w.polls - 1)
  {
    var polls := SnapshotPolls(pulls, number, snapshots);
    SleepsBounded(i, start, polls);
    var w := Wait(i, start, polls, 0);
    if !w.Waiting? {
      InTimeUnderWay(i, pulls, number, snapshots, w.polls - 1);
    }
  }

  /** Each round asks for at most eight listings of workflow runs. */
  lemma SnapshotListings(s: Snapshot, query: RunQuery)
    ensures Listed(SIX_EVERY_TWENTY_SECONDS, false, s.workflows(query)) <= 8
  {
    ListedBounded(SIX_EVERY_TWENTY_SECONDS, false, s.workflows(query));
    assert Initialised(SIX_EVERY_TWENTY_SECONDS).maxAttempts == 6;
  }

  /** Statuses that stay under way keep the wait going beyond any limit. */
  lemma InProgressNeverEnds(l: Limits, pulls: Pulls, number: nat, start: int, snapshots: seq<Snapshot>)
    requires forall s | s in snapshots :: Readable(pulls, number, s) && UnderWay(StatsOf(pulls, number, s))
    ensures StatusChecks(l, pulls, number, start, snapshots) == Waiting
  {
    var polls := SnapshotPolls(pulls, number, snapshots);
    forall i | 0 <= i < |snapshots| ensures polls[i].verdict == Again(false) {
      SnapshotMeans(pulls, number, snapshots[i]);
    }
    UnlimitedNeverEnds(Initialised(l), start, polls, 0);
  }
}
