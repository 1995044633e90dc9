/**
 Where a review guarantees less than it seems to (pkg/review/review.go): the exact
 conditions under which an approval follows the update of the branch, and under which
 the last gate judged the merged commit, with runs that miss them.
 */
module ReviewGaps {
  import opened Results
  import opened GitHub
  import opened Effects
  import opened Statuses
  import opened Polling
  import opened Workflows
  import opened Waits
  import opened WaitLaws
  import opened Rules
  import opened Gates
  import opened GateLaws
  import opened Heads
  import opened Review
  import opened ReviewLaws

  // ---------- a failed fetch ----------

  /** A failed fetch counts as the updated branch, but the run goes no further than the
      status checks: their first round asks for pull request 0, fails, and leaves a
      comment. Nothing is approved. */
  lemma FailedFetchEndsRun(s: Setup, o: Oracle)
    requires Approvable(s, o) && Outdated(o) && BranchUpdated(o) && CurrentPR(o).None? && o.statuses.1 != []
    ensures Reviewed(s, o) == Stop([UpdateBranch(true), AddComment(o.commented)], Returned(Some(Templated(ApiError))))
  {
    PrepareMeans(s, o);
    NilStatusChecks(DEFAULT_LIMITS, o.pulls, o.statuses.0, o.statuses.1);
    FailedWait(o);
    StopsEarly(Prepare(s, o), AwaitChecks(o), Then(Approving(s, o), Approved(s, o)));
  }

  lemma FailedWait(o: Oracle)
    requires Outdated(o) && BranchUpdated(o) && CurrentPR(o).None? && StatusWait(o) == Some(Refused(ApiError))
    ensures AwaitChecks(o) == Stop([UpdateBranch(true), AddComment(o.commented)], Returned(Some(Templated(ApiError))))
  {
    UpdateIs(o);
    assert [UpdateBranch(true)] + [AddComment(o.commented)] == [UpdateBranch(true), AddComment(o.commented)];
  }

  lemma StopsEarly(a: Step, b: Step, c: Step)
    requires a == PROCEED && b.Stop?
    ensures Then(a, Then(b, c)) == b
  {
  }

  // ---------- the head over time ----------

  function HeadOf(o: Oracle): Head {
    (t: int) => o.pulls(o.number, t).headSha
  }

  /** The error of the wait for the updated branch, which the run does not look at. */
  predicate RebaseTimedOut(o: Oracle) {
    RebaseEnd(o).Some? && RebaseEnd(o).value.1.Some?
  }

  /** When the wait for the updated branch made its last fetch. */
  function LastFetchAt(o: Oracle): int {
    var fetches := o.rebase.1;
    var w := RebaseWait(TEN_MINUTE_LIMITS, o.pulls, FirstPR(o), o.rebase.0, fetches);
    if !w.Waiting? && 0 < w.polls <= |fetches| then fetches[w.polls - 1].call.at else o.first.at
  }

  /** When the run last fetched the head that it goes on with: first of all, unless the
      branch was outdated. */
  function LastLook(o: Oracle): int {
    if Outdated(o) then LastFetchAt(o) else o.first.at
  }

  /** The answers come in the order of the queries. */
  predicate Timely(o: Oracle) {
    o.first.at <= LastLook(o) <= o.approvedAt <= o.mergedAt
  }

  /** When it timed out, its limits were last checked more than ten minutes after its
      start, or it had fetched more often than a 32-bit counter allows. */
  lemma TimeoutIsLate(o: Oracle)
    requires RebaseTimedOut(o)
    ensures var n := RebaseWait(TEN_MINUTE_LIMITS, o.pulls, FirstPR(o), o.rebase.0, o.rebase.1).polls;
            && 0 < n <= |o.rebase.1|
            && (o.rebase.1[n - 1].checkedAt > o.rebase.0 + 600_000_000_000 || n > 2_147_483_647)
  {
    WaitMeans(Initialised(TEN_MINUTE_LIMITS), o.rebase.0, FetchPolls(o.pulls, FirstPR(o), o.rebase.1), 0);
  }

  /** The wait for the updated branch ended in time exactly when its last fetch failed
      or showed another head than the first. */
  lemma RebaseEndMeans(o: Oracle)
    requires RebaseEnd(o).Some? && FirstFetch(o).Some?
    ensures RebaseEnd(o).value.0.Some? ==> ShaOf(RebaseEnd(o).value.0) == HeadOf(o)(LastFetchAt(o))
    ensures RebaseTimedOut(o) <==> ShaOf(RebaseEnd(o).value.0) == FirstPR(o).headSha
  {
    WaitMeans(Initialised(TEN_MINUTE_LIMITS), o.rebase.0, FetchPolls(o.pulls, FirstPR(o), o.rebase.1), 0);
  }

  lemma FirstHead(o: Oracle)
    requires FirstFetch(o).Some?
    ensures FirstPR(o).headSha == HeadOf(o)(o.first.at) && FirstPR(o).number == o.number
  {
  }

  /** A run that approves an outdated branch was not timed out exactly when the head
      had moved to another one by the last fetch, whoever moved it. */
  lemma NewHeadIff(s: Setup, o: Oracle)
    requires Approves(Reviewed(s, o).effects) && Outdated(o)
    ensures !RebaseTimedOut(o) <==> HeadOf(o)(LastFetchAt(o)) != HeadOf(o)(o.first.at)
  {
    ApprovesIff(s, o);
    FirstHead(o);
    RebaseEndMeans(o);
  }

  // ---------- which head is merged ----------

  /** The head that the run goes on with is that of its last look. */
  lemma CurrentHead(o: Oracle)
    requires CurrentPR(o).Some? && FirstFetch(o).Some?
    ensures CurrentPR(o).value.headSha == HeadOf(o)(LastLook(o))
  {
    FirstHead(o);
    if Outdated(o) {
      RebaseEndMeans(o);
    }
  }

  /** The last gate judges the commit that the second and third gate and the wait for the
      head branch judge exactly when the branch was up to date or the wait for its update
      timed out. */
  lemma JudgedCommitIff(s: Setup, o: Oracle)
    requires Approves(Reviewed(s, o).effects)
    ensures CurrentPR(o).Some?
    ensures FirstPR(o).headSha == CurrentPR(o).value.headSha <==> !Outdated(o) || RebaseTimedOut(o)
  {
    ApprovesIff(s, o);
    if Outdated(o) {
      RebaseEndMeans(o);
    }
  }

  /** The same over the head's times. */
  lemma JudgedHeads(s: Setup, o: Oracle)
    requires Merges(Reviewed(s, o).effects)
    ensures FirstPR(o).headSha == HeadOf(o)(o.first.at)
    ensures CurrentPR(o).Some? && CurrentPR(o).value.headSha == HeadOf(o)(LastLook(o))
    ensures HeadOf(o)(o.first.at) == HeadOf(o)(LastLook(o)) <==> !Outdated(o) || RebaseTimedOut(o)
  {
    MergesIff(s, o);
    ApprovesIff(s, o);
    FirstHead(o);
    CurrentHead(o);
    JudgedCommitIff(s, o);
  }

  /** If the head never returns, GitHub merges the commit that those stages judged exactly
      when the head did not move after the run last looked at it. */
  lemma MergedHeadCurrentIff(s: Setup, o: Oracle)
    requires Merges(Reviewed(s, o).effects) && Timely(o) && NeverReturns(HeadOf(o), o.first.at, o.mergedAt)
    ensures CurrentPR(o).Some?
    ensures CurrentPR(o).value.headSha == MergedHead(o) <==> !Moves(HeadOf(o), LastLook(o), o.mergedAt)
  {
    JudgedHeads(s, o);
    SameHeadIff(HeadOf(o), o.first.at, o.mergedAt, LastLook(o), o.mergedAt);
  }

  /** And the commit that the last gate judged exactly when, moreover, the branch was up to
      date or the wait for its update timed out. */
  lemma MergedHeadCheckedIff(s: Setup, o: Oracle)
    requires Merges(Reviewed(s, o).effects) && Timely(o) && NeverReturns(HeadOf(o), o.first.at, o.mergedAt)
    ensures FirstPR(o).headSha == MergedHead(o) <==>
            (!Outdated(o) || RebaseTimedOut(o)) && !Moves(HeadOf(o), LastLook(o), o.mergedAt)
  {
    JudgedHeads(s, o);
    SameThrough(HeadOf(o), o.first.at, LastLook(o), o.mergedAt);
  }

  /** Also for heads that return the condition is enough. */
  lemma MergedHeadChecked(s: Setup, o: Oracle)
    requires Merges(Reviewed(s, o).effects) && Timely(o)
    requires (!Outdated(o) || RebaseTimedOut(o)) && !Moves(HeadOf(o), LastLook(o), o.mergedAt)
    ensures FirstPR(o).headSha == MergedHead(o)
  {
    JudgedHeads(s, o);
    Still(HeadOf(o), LastLook(o), o.mergedAt);
  }

  /** The accepted update lands at this time, if at all, and nothing else moves the head
      until `until`. A branch that is not outdated is not updated. */
  ghost predicate OnlyUpdate(o: Oracle, landing: Option<int>, until: int) {
    && (forall t | o.first.at < t <= until && MovesAt(HeadOf(o), t) :: landing == Some(t))
    && (landing.Some? ==> Outdated(o) && o.first.at < landing.value && MovesAt(HeadOf(o), landing.value))
  }

  predicate LandsBy(landing: Option<int>, t: int) {
    landing.Some? && landing.value <= t
  }

  /** The update lands after the wait for it gave up. */
  predicate LandsLate(o: Oracle, landing: Option<int>, until: int) {
    landing.Some? && LastFetchAt(o) < landing.value <= until
  }

  lemma HeadsUnderUpdate(o: Oracle, landing: Option<int>, until: int, t: int)
    requires OnlyUpdate(o, landing, until) && o.first.at <= t <= until
    ensures HeadOf(o)(t) != HeadOf(o)(o.first.at) <==> LandsBy(landing, t)
  {
    if landing.Some? {
      OneMove(HeadOf(o), o.first.at, t, landing.value);
    } else {
      Still(HeadOf(o), o.first.at, t);
    }
  }

  /** Then the wait for it was not timed out exactly when it landed by the last fetch. */
  lemma LandedIff(s: Setup, o: Oracle, landing: Option<int>, until: int)
    requires Approves(Reviewed(s, o).effects) && Outdated(o) && o.first.at <= LastFetchAt(o) <= until
    requires OnlyUpdate(o, landing, until)
    ensures !RebaseTimedOut(o) <==> LandsBy(landing, LastFetchAt(o))
  {
    NewHeadIff(s, o);
    HeadsUnderUpdate(o, landing, until, LastFetchAt(o));
  }

  lemma LandsByOrLate(o: Oracle, landing: Option<int>, until: int)
    requires LastFetchAt(o) <= until
    ensures LandsBy(landing, until) <==> LandsBy(landing, LastFetchAt(o)) || LandsLate(o, landing, until)
  {
  }

  /** If only the run's own update moves the head, then the last gate saw the head that
      is merged exactly when the branch was up to date, or the wait for its update timed
      out and the update did not land before the merge either. */
  lemma MergedHeadUnderUpdate(s: Setup, o: Oracle, landing: Option<int>)
    requires Merges(Reviewed(s, o).effects) && Timely(o) && OnlyUpdate(o, landing, o.mergedAt)
    ensures FirstPR(o).headSha == MergedHead(o) <==>
            !Outdated(o) || (RebaseTimedOut(o) && !LandsLate(o, landing, o.mergedAt))
  {
    JudgedHeads(s, o);
    HeadsUnderUpdate(o, landing, o.mergedAt, o.mergedAt);
    if Outdated(o) {
      MergesIff(s, o);
      ApprovesIff(s, o);
      LandedIff(s, o, landing, o.mergedAt);
      LandsByOrLate(o, landing, o.mergedAt);
    }
  }

  /** If only the run's own update moves the head, then an approval of an outdated
      branch comes after the update landed exactly when the wait for it did not time
      out, or the update landed between its last fetch and the approval. */
  lemma ApprovedAfterUpdateIff(s: Setup, o: Oracle, landing: Option<int>)
    requires Approves(Reviewed(s, o).effects) && Outdated(o) && Timely(o) && OnlyUpdate(o, landing, o.approvedAt)
    ensures LandsBy(landing, o.approvedAt) <==> !RebaseTimedOut(o) || LandsLate(o, landing, o.approvedAt)
  {
    LandedIff(s, o, landing, o.approvedAt);
    LandsByOrLate(o, landing, o.approvedAt);
  }

  // ---------- runs that miss the conditions ----------

  /** Asks for nothing but a rule, and has one for every branch. */
  const LENIENT := Policy([], [], [], map[[] := Rule([], [], [], None, [], [], false)])

  const LENIENT_SETUP := Setup([], Some(LENIENT), Some(LENIENT), NoMethod)

  lemma LenientMet(pr: PullRequest)
    ensures ConditionsMet(pr, LENIENT, NO_EVIDENCE) && ChecksMet(false, pr, LENIENT, NO_EVIDENCE)
  {
    assert Matching(LENIENT.rules, pr.headRef, []);
    var i := SelectedHas(LENIENT, pr, []);
    assert ConditionsMetAt(pr, LENIENT, NO_EVIDENCE, i);
    forall j | 0 <= j < i ensures !ChecksCrashAt(false, pr, LENIENT, NO_EVIDENCE, j) {
      RuleAtIs(LENIENT, pr, j);
    }
    assert ChecksPassAt(false, pr, LENIENT, NO_EVIDENCE, i);
  }

  const NO_RUNS := NoBaseline(Ok([]))

  /** A pull request whose head moves to `sha` at time `at`. */
  function MovedAt(pr: PullRequest, at: int, sha: string): Pulls {
    (number: nat, t: int) => if t < at then pr else pr.(headSha := sha)
  }

  const CALM_ROUNDS := (0, [Round((query: RunQuery) => NO_RUNS, 0)])

  const CALM_SNAPSHOT :=
    Snapshot(Call(true, 0), (branch: string) => Unprotected, (query: RunQuery) => NO_RUNS,
             (sha: string) => NOTHING_LISTED, 0)

  /** A run that meets no obstacle, over such a pull request. */
  function Calm(pr: PullRequest, at: int, sha: string, comparison: Comparison, fetch: Fetch, mergedAt: int): Oracle {
    Oracle(true, true, pr.number, MovedAt(pr, at, sha), Call(true, 0), Some(Repository(Some(true), None, None)), true,
           (head: string) => Some(comparison), Updated, (0, [fetch]), (0, [CALM_SNAPSHOT]), true, fetch.call.at,
           CALM_ROUNDS, CALM_ROUNDS, true, mergedAt, true, (i: nat, n: nat, head: string) => NO_EVIDENCE)
  }

  lemma NothingCollected()
    ensures Collected(NOTHING_LISTED) == Some([])
  {
    var pages := NOTHING_LISTED;
    assert pages.combinedPages[..0] == [] && pages.runPages[..0] == [];
    assert Items(pages.combined(0)) == [] && OfCheckRuns(Items(pages.runs(0))) == [];
  }

  lemma CalmReady(pulls: Pulls, number: nat)
    requires number > 0
    ensures Ready(pulls, number, CALM_SNAPSHOT)
  {
    var pr := Fetched(pulls, number, CALM_SNAPSHOT.call).value;
    assert CALM_SNAPSHOT.workflows(HeadQuery(pr)) == NO_RUNS && CALM_SNAPSHOT.statuses(pr.headSha) == NOTHING_LISTED;
    assert Collected(NOTHING_LISTED) == Some([]) by { NothingCollected(); }
    assert CALM_SNAPSHOT.protection(pr.baseRef) == Unprotected;
    assert Reports(SIX_EVERY_TWENTY_SECONDS, false, NO_RUNS, {});
  }

  lemma CalmWaits(o: Oracle)
    requires o.statuses == (0, [CALM_SNAPSHOT]) && o.mainRuns == CALM_ROUNDS && o.headRuns == CALM_ROUNDS
    requires CurrentPR(o).Some? && CurrentPR(o).value.number > 0
    ensures StatusesReady(o) && MainClear(o) && HeadClear(o)
  {
    CalmReady(o.pulls, NumberOf(CurrentPR(o)));
    assert ReadyAt(DEFAULT_LIMITS, o.pulls, NumberOf(CurrentPR(o)), 0, o.statuses.1, 0);
    CalmRounds(MainQuery(OrNil(CurrentPR(o))));
    CalmRounds(BranchQuery(OrNil(CurrentPR(o))));
  }

  lemma CalmRounds(query: RunQuery)
    ensures ClearsAt(TEN_BY_THE_MINUTE, query, MERGEABLE_STATES, CALM_ROUNDS.0, CALM_ROUNDS.1, 0)
  {
    assert Reports(FIVE_BY_THE_MINUTE, query.isPush, NO_RUNS, {});
  }

  /** Whatever the rest of the answers, gates that hold and waits that pass are enough. */
  lemma DueWhenMet(s: Setup, o: Oracle)
    requires Opened(o) && o.repo.Some? && s.approver == [] && s.approve.Some? && s.merge.Some? && o.approved
    requires BranchUpdated(o) && CurrentPR(o).Some? && CurrentOpen(o)
    requires StatusesReady(o) && MainClear(o) && HeadClear(o)
    requires ConditionsMet(FirstPR(o), s.approve.value, Shown(o, 0, FirstPR(o)))
    requires ChecksMet(false, CurrentPR(o).value, s.approve.value, Shown(o, 1, CurrentPR(o).value))
    requires ConditionsMet(CurrentPR(o).value, s.merge.value, Shown(o, 2, CurrentPR(o).value))
    requires ChecksMet(false, FirstPR(o), s.merge.value, Shown(o, 3, FirstPR(o)))
    ensures Approves(Reviewed(s, o).effects) && Merges(Reviewed(s, o).effects)
  {
    ApprovesIff(s, o);
    MergesIff(s, o);
  }

  lemma CalmDue(pr: PullRequest, at: int, sha: string, comparison: Comparison, fetch: Fetch, mergedAt: int)
    requires !pr.closed && pr.number > 0
    requires BranchUpdated(Calm(pr, at, sha, comparison, fetch, mergedAt))
    requires CurrentPR(Calm(pr, at, sha, comparison, fetch, mergedAt)).Some?
    ensures var o := Calm(pr, at, sha, comparison, fetch, mergedAt);
            Approves(Reviewed(LENIENT_SETUP, o).effects) && Merges(Reviewed(LENIENT_SETUP, o).effects)
  {
    var o := Calm(pr, at, sha, comparison, fetch, mergedAt);
    CalmCurrent(o);
    CalmWaits(o);
    LenientMet(FirstPR(o));
    LenientMet(CurrentPR(o).value);
    DueWhenMet(LENIENT_SETUP, o);
  }

  lemma CalmCurrent(o: Oracle)
    requires CurrentPR(o).Some? && FirstFetch(o).Some? && forall t :: !o.pulls(o.number, t).closed
    ensures !CurrentPR(o).value.closed && CurrentPR(o).value.number == o.number && o.number > 0
  {
    if Outdated(o) {
      WaitMeans(Initialised(TEN_MINUTE_LIMITS), o.rebase.0, FetchPolls(o.pulls, FirstPR(o), o.rebase.1), 0);
    }
  }

  /** The answers of such a run fit the conditions above. */
  lemma CalmOrdered(pr: PullRequest, at: int, sha: string, comparison: Comparison, fetch: Fetch, mergedAt: int)
    requires 0 <= fetch.call.at <= mergedAt
    ensures var o := Calm(pr, at, sha, comparison, fetch, mergedAt);
            LastLook(o) <= fetch.call.at && Timely(o) && NeverReturns(HeadOf(o), o.first.at, o.mergedAt)
  {
    var o := Calm(pr, at, sha, comparison, fetch, mergedAt);
    OnceNeverReturns(HeadOf(o), at, pr.headSha, sha, o.first.at, o.mergedAt);
  }

  const LATE := TEN_MINUTES + 1

  /** The one fetch after the update shows the old head, when the time is up. */
  const LATE_FETCH := Fetch(Call(true, 0), LATE)

  lemma LateTimesOut(pr: PullRequest, at: int, sha: string)
    requires pr.number > 0 && at > 0
    ensures var o := Calm(pr, at, sha, Behind, LATE_FETCH, LATE);
            Outdated(o) && RebaseTimedOut(o) && BranchUpdated(o) && CurrentPR(o).Some? && LastFetchAt(o) == 0
  {
  }

  /** A run approves and merges although the wait for the update timed out and the head
      never moved. */
  lemma MergedAfterTimeout(pr: PullRequest)
    requires !pr.closed && pr.number > 0
    ensures var o := Calm(pr, LATE + 1, pr.headSha, Behind, LATE_FETCH, LATE);
            && RebaseTimedOut(o) && !Moves(HeadOf(o), o.first.at, o.mergedAt) && FirstPR(o).headSha == MergedHead(o)
            && Timely(o) && NeverReturns(HeadOf(o), o.first.at, o.mergedAt)
            && Approves(Reviewed(LENIENT_SETUP, o).effects) && Merges(Reviewed(LENIENT_SETUP, o).effects)
  {
    LateTimesOut(pr, LATE + 1, pr.headSha);
    CalmDue(pr, LATE + 1, pr.headSha, Behind, LATE_FETCH, LATE);
    CalmOrdered(pr, LATE + 1, pr.headSha, Behind, LATE_FETCH, LATE);
  }

  /** A push after the first fetch: the branch was up to date and nothing timed out, but
      the last gate saw another head than is merged. */
  lemma PushIsMergedUnchecked(pr: PullRequest, sha: string)
    requires !pr.closed && pr.number > 0 && sha != pr.headSha
    ensures var o := Calm(pr, 1, sha, Ahead, LATE_FETCH, 1);
            && !Outdated(o) && FirstPR(o).headSha != MergedHead(o)
            && Timely(o) && NeverReturns(HeadOf(o), o.first.at, o.mergedAt)
            && Merges(Reviewed(LENIENT_SETUP, o).effects)
  {
    CalmDue(pr, 1, sha, Ahead, LATE_FETCH, 1);
    CalmOrdered(pr, 1, sha, Ahead, LATE_FETCH, 1);
  }

  /** An update that lands after the wait gave up: also then another head is merged than
      the last gate saw. */
  lemma LateUpdateIsMergedUnchecked(pr: PullRequest, sha: string)
    requires !pr.closed && pr.number > 0 && sha != pr.headSha
    ensures var o := Calm(pr, LATE, sha, Behind, LATE_FETCH, LATE);
            && RebaseTimedOut(o) && LandsLate(o, Some(LATE), o.mergedAt) && FirstPR(o).headSha != MergedHead(o)
            && Timely(o) && NeverReturns(HeadOf(o), o.first.at, o.mergedAt)
            && Merges(Reviewed(LENIENT_SETUP, o).effects)
  {
    LateTimesOut(pr, LATE, sha);
    CalmDue(pr, LATE, sha, Behind, LATE_FETCH, LATE);
    CalmOrdered(pr, LATE, sha, Behind, LATE_FETCH, LATE);
  }

  const PROMPT_FETCH := Fetch(Call(true, 1), 1)

  lemma PushEndsWait(pr: PullRequest, sha: string)
    requires pr.number > 0 && sha != pr.headSha
    ensures var o := Calm(pr, 1, sha, Behind, PROMPT_FETCH, 1);
            Outdated(o) && RebaseEnd(o).Some? && !RebaseTimedOut(o) && CurrentPR(o).Some?
  {
  }

  /** A push that moves the head counts as the update: nothing times out, and the run
      approves although the update never lands. */
  lemma PushCountsAsUpdate(pr: PullRequest, sha: string)
    requires !pr.closed && pr.number > 0 && sha != pr.headSha
    ensures var o := Calm(pr, 1, sha, Behind, PROMPT_FETCH, 1);
            && Outdated(o) && !RebaseTimedOut(o) && !OnlyUpdate(o, None, o.approvedAt)
            && Approves(Reviewed(LENIENT_SETUP, o).effects)
  {
    PushEndsWait(pr, sha);
    CalmDue(pr, 1, sha, Behind, PROMPT_FETCH, 1);
    assert MovesAt(HeadOf(Calm(pr, 1, sha, Behind, PROMPT_FETCH, 1)), 1);
  }

  const FAILED_FETCH := Fetch(Call(false, 0), 0)

  /** A run that ends with a comment because its fetch after the update failed. */
  lemma FailedFetchRun(pr: PullRequest)
    requires !pr.closed && pr.number > 0 && pr.headSha != []
    ensures var o := Calm(pr, 1, pr.headSha, Behind, FAILED_FETCH, 1);
            && Approvable(LENIENT_SETUP, o) && Outdated(o) && BranchUpdated(o) && CurrentPR(o).None?
            && Reviewed(LENIENT_SETUP, o) ==
               Stop([UpdateBranch(true), AddComment(true)], Returned(Some(Templated(ApiError))))
  {
    var o := Calm(pr, 1, pr.headSha, Behind, FAILED_FETCH, 1);
    LenientMet(FirstPR(o));
    FailedFetchCountsAsRebase(TEN_MINUTE_LIMITS, o.pulls, FirstPR(o), 0, [FAILED_FETCH]);
    FailedFetchEndsRun(LENIENT_SETUP, o);
  }
}
