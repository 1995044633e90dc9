/** What every run of a review keeps: the order of its effects, and when it approves and merges. */
module ReviewLaws {
  import opened Results
  import opened GitHub
  import opened Effects
  import opened Statuses
  import opened Polling
  import opened Workflows
  import opened Waits
  import opened WaitLaws
  import opened Rules
  import opened Validators
  import opened Gates
  import opened GateLaws
  import opened Review

  // ---------- when a run approves and merges ----------

  /** Some snapshot of the pull request was ready, and after every earlier one the wait
      for the status checks went on. */
  ghost predicate StatusesReady(o: Oracle) {
    exists n: nat :: ReadyAt(DEFAULT_LIMITS, o.pulls, NumberOf(CurrentPR(o)), o.statuses.0, o.statuses.1, n)
  }

  /** Some round cleared the base branch, and after every earlier one the wait went on. */
  ghost predicate MainClear(o: Oracle) {
    var query := RunQuery(true, OrNil(CurrentPR(o)).baseRef, OrNil(CurrentPR(o)).baseSha);
    exists n: nat :: ClearsAt(TEN_BY_THE_MINUTE, query, {Success, Skipped}, o.mainRuns.0, o.mainRuns.1, n)
  }

  ghost predicate HeadClear(o: Oracle) {
    var query := RunQuery(false, OrNil(CurrentPR(o)).headRef, OrNil(CurrentPR(o)).headSha);
    exists n: nat :: ClearsAt(TEN_BY_THE_MINUTE, query, {Success, Skipped}, o.headRuns.0, o.headRuns.1, n)
  }

  /** The first fetched commit is behind the default branch, or could not be compared. */
  predicate IsBehind(o: Oracle) {
    o.comparison(FirstPR(o).headSha) in {None, Some(Behind), Some(Diverged)}
  }

  predicate BranchUpdated(o: Oracle) {
    IsBehind(o) ==> !o.update.UpdateError? && RebaseEnd(o).Some?
  }

  predicate Opened(o: Oracle) {
    o.installationClient && o.githubClient && FirstFetch(o).Some? && !FirstPR(o).closed
  }

  /** The first gate holds of the pull request as first fetched. */
  ghost predicate Approvable(s: Setup, o: Oracle) {
    && Opened(o) && o.repo.Some?
    && s.approve.Some? && ConditionsMet(FirstPR(o), s.approve.value, o.gates(0, FirstPR(o).number, FirstPR(o).headSha))
    && (s.approver == [] || o.userClient)
  }

  predicate CurrentOpen(o: Oracle) {
    CurrentPR(o).Some? ==> !CurrentPR(o).value.closed
  }

  /** All that has to hold before the second gate is asked. */
  ghost predicate ChecksDue(s: Setup, o: Oracle) {
    Approvable(s, o) && BranchUpdated(o) && CurrentOpen(o) && StatusesReady(o) && CurrentPR(o).Some?
  }

  /** All that has to hold before an approval is requested. */
  ghost predicate ApprovalDue(s: Setup, o: Oracle) {
    ChecksDue(s, o) &&
    var pr := CurrentPR(o).value;
    ChecksMet(false, pr, s.approve.value, o.gates(1, pr.number, pr.headSha))
  }

  /** The third gate holds and both branches are clear. */
  ghost predicate RunsDue(s: Setup, o: Oracle) {
    && s.merge.Some? && CurrentPR(o).Some?
    && (var pr := CurrentPR(o).value; ConditionsMet(pr, s.merge.value, o.gates(2, pr.number, pr.headSha)))
    && MainClear(o) && HeadClear(o)
  }

  /** All that has to hold, once approved, before a merge is requested. */
  ghost predicate MergeDue(s: Setup, o: Oracle) {
    RunsDue(s, o) && ChecksMet(false, FirstPR(o), s.merge.value, o.gates(3, FirstPR(o).number, FirstPR(o).headSha))
  }

  /** No status check of a nil pull request becomes ready. */
  lemma ReadyNeedsPullRequest(o: Oracle)
    ensures StatusesReady(o) ==> CurrentPR(o).Some?
  {
    if StatusesReady(o) {
      var n: nat :| ReadyAt(DEFAULT_LIMITS, o.pulls, NumberOf(CurrentPR(o)), o.statuses.0, o.statuses.1, n);
      assert Ready(o.pulls, NumberOf(CurrentPR(o)), o.statuses.1[n]);
    }
  }

  // ---------- single stages ----------

  /** A stage that changes nothing unless it leaves a comment and ends the run. */
  predicate Quiet(o: Oracle, step: Step) {
    step == PROCEED || (step.Stop? && (step.effects == [] || step.effects == [AddComment(o.commented)]))
  }

  predicate Commented(effects: seq<Effect>) {
    effects != [] && effects[|effects| - 1].AddComment?
  }

  predicate MergedLast(effects: seq<Effect>) {
    effects != [] && effects[|effects| - 1].Merge? && effects[|effects| - 1].ok
  }

  /** What a run returns tells whether it left a comment. */
  predicate Speaks(step: Step, closed: bool, plain: bool) {
    if step.Go? then !Commented(step.effects)
    else
      match step.outcome
      case Returned(None) => closed || Commented(step.effects) || MergedLast(step.effects)
      case Returned(Some(Plain)) => plain && step.effects == []
      case Returned(Some(Templated(_))) => Commented(step.effects)
      case _ => !Commented(step.effects)
  }

  lemma ThenSpeaks(a: Step, b: Step, closed: bool, plain: bool)
    requires Speaks(a, closed, plain) && Speaks(b, closed, plain) && (plain && a.Go? ==> a.effects == [])
    ensures Speaks(Then(a, b), closed, plain)
  {
    if a.Go? && b.effects != [] {
      assert (a.effects + b.effects)[|a.effects + b.effects| - 1] == b.effects[|b.effects| - 1];
    } else if a.Go? {
      assert a.effects + b.effects == a.effects;
    }
  }

  lemma GateStepMeans(o: Oracle, report: Report)
    ensures GateStep(o, report) == PROCEED <==> Succeeds(report)
    ensures Quiet(o, GateStep(o, report))
  {
  }

  lemma WaitStepMeans(o: Oracle, answer: Option<Answer>, unpassed: Ending)
    requires answer.Some? ==> Decided(answer.value)
    ensures WaitStep(o, answer, unpassed) == PROCEED <==> answer == Some(PASSED)
    ensures Quiet(o, WaitStep(o, answer, unpassed))
    ensures WaitStep(o, answer, unpassed) == WaitStep(o, answer, Pending)
  {
  }

  lemma ThenQuiet(o: Oracle, a: Step, b: Step)
    requires Quiet(o, a) && Quiet(o, b)
    ensures Quiet(o, Then(a, b))
    ensures Then(a, b) == PROCEED <==> a == PROCEED && b == PROCEED
  {
  }

  /** What a run would return for a wait that did not pass is never returned: the
      waits never fail without an error. */
  lemma WaitsAreDecided(o: Oracle, unpassed: Ending)
    ensures WaitStep(o, StatusWait(o), unpassed) == WaitStep(o, StatusWait(o), Pending)
    ensures WaitStep(o, MainWait(o), unpassed) == WaitStep(o, MainWait(o), Pending)
    ensures WaitStep(o, HeadWait(o), unpassed) == WaitStep(o, HeadWait(o), Pending)
  {
    StatusChecksDecided(DEFAULT_LIMITS, o.pulls, NumberOf(CurrentPR(o)), o.statuses.0, o.statuses.1);
    PRChecksDecided(TEN_BY_THE_MINUTE, MainQuery(OrNil(CurrentPR(o))), MERGEABLE_STATES, o.mainRuns.0, o.mainRuns.1);
    PRChecksDecided(TEN_BY_THE_MINUTE, BranchQuery(OrNil(CurrentPR(o))), MERGEABLE_STATES, o.headRuns.0, o.headRuns.1);
    if StatusWait(o).Some? { WaitStepMeans(o, StatusWait(o), unpassed); }
    if MainWait(o).Some? { WaitStepMeans(o, MainWait(o), unpassed); }
    if HeadWait(o).Some? { WaitStepMeans(o, HeadWait(o), unpassed); }
  }

  predicate FirstClosed(o: Oracle) {
    FirstFetch(o).Some? && FirstPR(o).closed
  }

  lemma FirstGateMeans(s: Setup, o: Oracle)
    ensures FirstGate(s, o) == PROCEED <==>
            o.repo.Some? && s.approve.Some? && ConditionsMet(FirstPR(o), s.approve.value, Shown(o, 0, FirstPR(o)))
    ensures Quiet(o, FirstGate(s, o))
  {
    if s.approve.Some? {
      ConditionsSpec(false, FirstPR(o), s.approve.value, ForApprove, Shown(o, 0, FirstPR(o)));
    }
    GateStepMeans(o, ApproveConditions(s, o));
  }

  lemma PrepareMeans(s: Setup, o: Oracle)
    ensures Prepare(s, o) == PROCEED <==> Approvable(s, o)
    ensures Quiet(o, Prepare(s, o))
  {
    FirstGateMeans(s, o);
    ThenQuiet(o, FirstGate(s, o), UserClient(s, o));
    ThenQuiet(o, Opening(o), Then(FirstGate(s, o), UserClient(s, o)));
  }

  /** The effects of an update that lets the run go on. */
  function Updates(o: Oracle): seq<Effect> {
    if IsBehind(o) then [UpdateBranch(true)] else []
  }

  /** Effects, then perhaps a comment that ends the run. */
  predicate QuietAfter(o: Oracle, before: seq<Effect>, step: Step) {
    step == Go(before) || (step.Stop? && (step.effects == before || step.effects == before + [AddComment(o.commented)]))
  }

  function UpdateFails(o: Oracle): Step {
    Stop([UpdateBranch(false), AddComment(o.commented)], Returned(Some(Templated(ApiError))))
  }

  lemma ThenAfter(o: Oracle, before: seq<Effect>, next: Step)
    requires Quiet(o, next)
    ensures QuietAfter(o, before, Then(Go(before), next))
    ensures Then(Go(before), next).Go? <==> next == PROCEED
    ensures next.Stop? ==> Then(Go(before), next) == Stop(before + next.effects, next.outcome)
  {
    assert before + [] == before && [] + next.effects == next.effects;
  }

  lemma StatusStepMeans(o: Oracle)
    ensures var step := Then(StillOpen(o), WaitStep(o, StatusWait(o), DONE));
            && Quiet(o, step)
            && (step == PROCEED <==> CurrentOpen(o) && StatusesReady(o))
  {
    StatusChecksDecided(DEFAULT_LIMITS, o.pulls, NumberOf(CurrentPR(o)), o.statuses.0, o.statuses.1);
    StatusChecksPass(DEFAULT_LIMITS, o.pulls, NumberOf(CurrentPR(o)), o.statuses.0, o.statuses.1);
    WaitStepMeans(o, StatusWait(o), DONE);
    ThenQuiet(o, StillOpen(o), WaitStep(o, StatusWait(o), DONE));
  }

  lemma OutOfDateMeans(comparison: Option<Comparison>)
    ensures IsOutOfDate(comparison) <==> comparison in {None, Some(Behind), Some(Diverged)}
  {
    if comparison.Some? {
      match comparison.value {
        case Ahead =>
        case Behind =>
        case Diverged =>
        case Identical =>
        case OtherComparison =>
      }
    }
  }

  /** How the update goes. */
  lemma UpdateIs(o: Oracle)
    ensures Outdated(o) <==> IsBehind(o)
    ensures Update(o) ==
            if !IsBehind(o) then PROCEED
            else if o.update == UpdateError then UpdateFails(o)
            else if RebaseEnd(o).None? then Stop([UpdateBranch(true)], Pending)
            else Go([UpdateBranch(true)])
  {
    OutOfDateMeans(o.comparison(FirstPR(o).headSha));
  }

  lemma AwaitChecksMeans(o: Oracle)
    ensures AwaitChecks(o).Go? <==> BranchUpdated(o) && CurrentOpen(o) && StatusesReady(o)
    ensures AwaitChecks(o) == UpdateFails(o) || QuietAfter(o, Updates(o), AwaitChecks(o))
  {
    StatusStepMeans(o);
    UpdateIs(o);
    UpdateThen(o, Update(o), Then(StillOpen(o), WaitStep(o, StatusWait(o), DONE)));
  }

  lemma UpdateThen(o: Oracle, update: Step, next: Step)
    requires Quiet(o, next)
    requires update == UpdateFails(o) || update == Stop(Updates(o), Pending) || update == Go(Updates(o))
    ensures Then(update, next).Go? <==> update.Go? && next == PROCEED
    ensures Then(update, next) == UpdateFails(o) || QuietAfter(o, Updates(o), Then(update, next))
  {
    if update.Go? {
      ThenAfter(o, Updates(o), next);
    }
  }

  lemma ApprovingMeans(s: Setup, o: Oracle)
    ensures var pr := OrNil(CurrentPR(o));
            var due := s.approve.Some? && ChecksMet(false, pr, s.approve.value, Shown(o, 1, pr));
            if due then Approving(s, o) == Approval(o)
            else Quiet(o, Approving(s, o)) && Approving(s, o).Stop?
  {
    if s.approve.Some? {
      ChecksSpec(false, OrNil(CurrentPR(o)), s.approve.value, ForApprove, Shown(o, 1, OrNil(CurrentPR(o))));
    }
    GateStepMeans(o, ApproveChecks(s, o));
  }

  lemma AwaitRunsMeans(o: Oracle)
    ensures AwaitRuns(o) == PROCEED <==> MainClear(o) && HeadClear(o)
    ensures Quiet(o, AwaitRuns(o))
  {
    PRChecksDecided(TEN_BY_THE_MINUTE, MainQuery(OrNil(CurrentPR(o))), MERGEABLE_STATES, o.mainRuns.0, o.mainRuns.1);
    PRChecksDecided(TEN_BY_THE_MINUTE, BranchQuery(OrNil(CurrentPR(o))), MERGEABLE_STATES, o.headRuns.0, o.headRuns.1);
    PRChecksPass(TEN_BY_THE_MINUTE, MainQuery(OrNil(CurrentPR(o))), MERGEABLE_STATES, o.mainRuns.0, o.mainRuns.1);
    PRChecksPass(TEN_BY_THE_MINUTE, BranchQuery(OrNil(CurrentPR(o))), MERGEABLE_STATES, o.headRuns.0, o.headRuns.1);
    WaitStepMeans(o, MainWait(o), Unpassed(o));
    WaitStepMeans(o, HeadWait(o), Unpassed(o));
    ThenQuiet(o, WaitStep(o, MainWait(o), Unpassed(o)), WaitStep(o, HeadWait(o), Unpassed(o)));
  }

  lemma FinishMeans(s: Setup, o: Oracle)
    ensures if s.merge.Some? && ChecksMet(false, FirstPR(o), s.merge.value, Shown(o, 3, FirstPR(o)))
            then Finish(s, o) == Merging(s, o)
            else Quiet(o, Finish(s, o)) && Finish(s, o).Stop?
  {
    if s.merge.Some? {
      ChecksSpec(false, FirstPR(o), s.merge.value, ForMerge, Shown(o, 3, FirstPR(o)));
    }
    GateStepMeans(o, MergeChecks(s, o));
  }

  lemma MergeGateMeans(s: Setup, o: Oracle)
    ensures GateStep(o, MergeConditions(s, o)) == PROCEED <==>
            && s.merge.Some? && CurrentPR(o).Some?
            && ConditionsMet(CurrentPR(o).value, s.merge.value, Shown(o, 2, CurrentPR(o).value))
    ensures Quiet(o, GateStep(o, MergeConditions(s, o)))
  {
    if s.merge.Some? && CurrentPR(o).Some? {
      ConditionsSpec(false, CurrentPR(o).value, s.merge.value, ForMerge, Shown(o, 2, CurrentPR(o).value));
    }
    GateStepMeans(o, MergeConditions(s, o));
  }

  lemma ApprovedMeans(s: Setup, o: Oracle)
    ensures if MergeDue(s, o) then Approved(s, o) == Merging(s, o)
            else Quiet(o, Approved(s, o)) && Approved(s, o).Stop?
  {
    MergeGateMeans(s, o);
    AwaitRunsMeans(o);
    FinishMeans(s, o);
    ApprovedShape(o, GateStep(o, MergeConditions(s, o)), AwaitRuns(o), Finish(s, o), Merging(s, o));
  }

  lemma ApprovedShape(o: Oracle, a: Step, b: Step, c: Step, merging: Step)
    requires Quiet(o, a) && Quiet(o, b)
    requires c == merging || (Quiet(o, c) && c.Stop?)
    ensures if a == PROCEED && b == PROCEED then Then(a, Then(b, c)) == c
            else Quiet(o, Then(a, Then(b, c))) && Then(a, Then(b, c)).Stop?
  {
  }

  // ---------- whole runs ----------

  /** How a run ends, given what was due: what it attempted, and what it returned. */
  predicate Ends(o: Oracle, approvable: bool, approvalDue: bool, mergeDue: bool, merging: Step, run: Step) {
    run.Stop? &&
    if approvalDue then
      if !o.approved then
        run == Stop(Updates(o) + [Approve(false), AddComment(o.commented)], Returned(Some(Templated(NotMergable))))
      else if mergeDue then
        run == merging.(effects := Updates(o) + [Approve(true)] + merging.effects)
      else
        QuietAfter(o, Updates(o) + [Approve(true)], run)
    else if approvable then run == UpdateFails(o) || QuietAfter(o, Updates(o), run)
    else Quiet(o, run)
  }

  lemma RunShape(o: Oracle, a: Step, b: Step, c: Step, d: Step)
    requires Quiet(o, a)
    requires b == UpdateFails(o) || QuietAfter(o, Updates(o), b)
    requires c == Approval(o) || (Quiet(o, c) && c.Stop?)
    ensures var run := Then(a, Then(b, Then(c, d)));
            if a == PROCEED then
              if b.Go? then
                if c != Approval(o) then QuietAfter(o, Updates(o), run) && run.Stop?
                else if !o.approved then
                  run == Stop(Updates(o) + [Approve(false), AddComment(o.commented)],
                              Returned(Some(Templated(NotMergable))))
                else run == d.(effects := Updates(o) + [Approve(true)] + d.effects)
              else run == b
            else run == a
  {
    assert forall x: seq<Effect> :: Updates(o) + ([Approve(true)] + x) == Updates(o) + [Approve(true)] + x;
    assert forall x: seq<Effect> :: [] + x == x && x + [] == x;
  }

  lemma RunEnds(o: Oracle, a: Step, b: Step, c: Step, d: Step, approvable: bool, ready: bool, checked: bool,
                mergeDue: bool, merging: Step)
    requires Quiet(o, a) && (a == PROCEED <==> approvable)
    requires (b == UpdateFails(o) || QuietAfter(o, Updates(o), b)) && (b.Go? <==> ready)
    requires if checked then c == Approval(o) else Quiet(o, c) && c.Stop?
    requires merging.Stop? && if mergeDue then d == merging else Quiet(o, d) && d.Stop?
    ensures Ends(o, approvable, approvable && ready && checked, mergeDue, merging, Then(a, Then(b, Then(c, d))))
  {
    RunShape(o, a, b, c, d);
    assert [] + d.effects == d.effects;
    assert Updates(o) + [Approve(true)] + [] == Updates(o) + [Approve(true)];
  }

  /** Every run ends as its answers call for. */
  lemma RunMeans(s: Setup, o: Oracle)
    ensures Ends(o, Approvable(s, o), ApprovalDue(s, o), MergeDue(s, o), Merging(s, o), Reviewed(s, o))
  {
    PrepareMeans(s, o);
    AwaitChecksMeans(o);
    ApprovingMeans(s, o);
    ApprovedMeans(s, o);
    ReadyNeedsPullRequest(o);
    var pr := OrNil(CurrentPR(o));
    RunEnds(o, Prepare(s, o), AwaitChecks(o), Approving(s, o), Approved(s, o), Approvable(s, o),
            BranchUpdated(o) && CurrentOpen(o) && StatusesReady(o),
            s.approve.Some? && ChecksMet(false, pr, s.approve.value, Shown(o, 1, pr)), MergeDue(s, o), Merging(s, o));
  }

  predicate SeenClosed(o: Oracle) {
    FirstClosed(o) || !CurrentOpen(o)
  }

  lemma GateSpeaks(o: Oracle, report: Report, closed: bool)
    ensures Speaks(GateStep(o, report), closed, false)
  {
  }

  lemma WaitSpeaks(o: Oracle, answer: Option<Answer>, unpassed: Ending, closed: bool)
    requires answer.Some? ==> Decided(answer.value)
    ensures Speaks(WaitStep(o, answer, unpassed), closed, false)
  {
  }

  lemma FirstGateSpeaks(s: Setup, o: Oracle, closed: bool)
    ensures Speaks(FirstGate(s, o), closed, true)
  {
    GateSpeaks(o, ApproveConditions(s, o), closed);
  }

  lemma PrepareSpeaks(s: Setup, o: Oracle)
    ensures Speaks(Prepare(s, o), SeenClosed(o), true)
  {
    FirstGateSpeaks(s, o, SeenClosed(o));
    FirstGateMeans(s, o);
    ThenSpeaks(FirstGate(s, o), UserClient(s, o), SeenClosed(o), true);
    ThenSpeaks(Opening(o), Then(FirstGate(s, o), UserClient(s, o)), SeenClosed(o), true);
  }

  lemma AwaitChecksSpeaks(o: Oracle)
    ensures Speaks(AwaitChecks(o), SeenClosed(o), false)
  {
    var wait := WaitStep(o, StatusWait(o), DONE);
    StatusChecksDecided(DEFAULT_LIMITS, o.pulls, NumberOf(CurrentPR(o)), o.statuses.0, o.statuses.1);
    WaitSpeaks(o, StatusWait(o), DONE, SeenClosed(o));
    ThenSpeaks(StillOpen(o), wait, SeenClosed(o), false);
    ThenSpeaks(Update(o), Then(StillOpen(o), wait), SeenClosed(o), false);
  }

  lemma ApprovingSpeaks(s: Setup, o: Oracle)
    ensures Speaks(Approving(s, o), SeenClosed(o), false)
  {
    GateSpeaks(o, ApproveChecks(s, o), SeenClosed(o));
    ThenSpeaks(GateStep(o, ApproveChecks(s, o)), Approval(o), SeenClosed(o), false);
  }

  lemma AwaitRunsSpeaks(o: Oracle)
    ensures Speaks(AwaitRuns(o), SeenClosed(o), false)
  {
    PRChecksDecided(TEN_BY_THE_MINUTE, MainQuery(OrNil(CurrentPR(o))), MERGEABLE_STATES, o.mainRuns.0, o.mainRuns.1);
    PRChecksDecided(TEN_BY_THE_MINUTE, BranchQuery(OrNil(CurrentPR(o))), MERGEABLE_STATES, o.headRuns.0, o.headRuns.1);
    WaitSpeaks(o, MainWait(o), Unpassed(o), SeenClosed(o));
    WaitSpeaks(o, HeadWait(o), Unpassed(o), SeenClosed(o));
    ThenSpeaks(WaitStep(o, MainWait(o), Unpassed(o)), WaitStep(o, HeadWait(o), Unpassed(o)), SeenClosed(o), false);
  }

  lemma FinishSpeaks(s: Setup, o: Oracle)
    ensures Speaks(Finish(s, o), SeenClosed(o), false)
  {
    GateSpeaks(o, MergeChecks(s, o), SeenClosed(o));
    ThenSpeaks(GateStep(o, MergeChecks(s, o)), Merging(s, o), SeenClosed(o), false);
  }

  lemma StagesSpeak(a: Step, b: Step, c: Step, d: Step, e: Step, f: Step, closed: bool)
    requires Speaks(a, closed, true) && (a.Go? ==> a.effects == [])
    requires Speaks(b, closed, false) && Speaks(c, closed, false)
    requires Speaks(d, closed, false) && Speaks(e, closed, false) && Speaks(f, closed, false)
    ensures Speaks(Then(a, Then(b, Then(c, Then(d, Then(e, f))))), closed, true)
  {
    ThenSpeaks(e, f, closed, false);
    ThenSpeaks(d, Then(e, f), closed, false);
    ThenSpeaks(c, Then(d, Then(e, f)), closed, false);
    ThenSpeaks(b, Then(c, Then(d, Then(e, f))), closed, false);
    ThenSpeaks(a, Then(b, Then(c, Then(d, Then(e, f)))), closed, true);
  }

  /** A run returns nil only after a comment, a merge, or finding the pull request
      closed. It returns an error of the waits, the update, the approval or the merge
      exactly after a comment on it; any other error before it has done anything. */
  lemma RunSpeaks(s: Setup, o: Oracle)
    ensures Speaks(Reviewed(s, o), SeenClosed(o), true)
  {
    PrepareSpeaks(s, o);
    PrepareMeans(s, o);
    AwaitChecksSpeaks(o);
    ApprovingSpeaks(s, o);
    GateSpeaks(o, MergeConditions(s, o), SeenClosed(o));
    AwaitRunsSpeaks(o);
    FinishSpeaks(s, o);
    StagesSpeak(Prepare(s, o), AwaitChecks(o), Approving(s, o), GateStep(o, MergeConditions(s, o)), AwaitRuns(o),
                Finish(s, o), SeenClosed(o));
  }

  // ---------- when a run crashes ----------

  predicate Panics(step: Step) {
    step.Stop? && step.outcome.Panicked?
  }

  lemma ThenPanics(a: Step, b: Step)
    ensures Panics(Then(a, b)) <==> Panics(a) || (a.Go? && Panics(b))
  {
  }

  /** The rules of a policy for the branch of this pull request hold a nil one. */
  ghost predicate NilRule(policy: Option<Policy>, pr: PullRequest) {
    policy.Some? && None in Selected(policy.value.rules, pr.headRef)
  }

  /** The comments and checks gate comes to a nil rule, or to one whose statuses cannot be read. */
  ghost predicate ChecksBreak(policy: Option<Policy>, pr: PullRequest, answers: Answers) {
    policy.Some? && ChecksCrash(false, pr, policy.value, answers)
  }

  /** In some snapshot a page of check runs failed, and after every earlier one the wait
      for the status checks went on. */
  ghost predicate StatusesBreak(o: Oracle) {
    exists n: nat :: BreaksAt(DEFAULT_LIMITS, o.pulls, NumberOf(CurrentPR(o)), o.statuses.0, o.statuses.1, n)
  }

  lemma PreparePanics(s: Setup, o: Oracle)
    ensures Panics(Prepare(s, o)) <==> Opened(o) && NilRule(s.approve, FirstPR(o))
  {
    if s.approve.Some? {
      ConditionsSpec(false, FirstPR(o), s.approve.value, ForApprove, Shown(o, 0, FirstPR(o)));
    }
    ThenPanics(FirstGate(s, o), UserClient(s, o));
    ThenPanics(Opening(o), Then(FirstGate(s, o), UserClient(s, o)));
  }

  lemma WaitStepPanics(o: Oracle, answer: Option<Answer>, unpassed: Ending)
    requires !unpassed.Panicked?
    ensures Panics(WaitStep(o, answer, unpassed)) <==> answer == Some(Crashed)
  {
  }

  lemma StatusStepPanics(o: Oracle)
    ensures Panics(Then(StillOpen(o), WaitStep(o, StatusWait(o), DONE))) <==> CurrentOpen(o) && StatusesBreak(o)
  {
    StatusChecksCrash(DEFAULT_LIMITS, o.pulls, NumberOf(CurrentPR(o)), o.statuses.0, o.statuses.1);
    WaitStepPanics(o, StatusWait(o), DONE);
    ThenPanics(StillOpen(o), WaitStep(o, StatusWait(o), DONE));
  }

  lemma AwaitChecksPanics(o: Oracle)
    ensures Panics(AwaitChecks(o)) <==> BranchUpdated(o) && CurrentOpen(o) && StatusesBreak(o)
  {
    StatusStepPanics(o);
    UpdateIs(o);
    ThenPanics(Update(o), Then(StillOpen(o), WaitStep(o, StatusWait(o), DONE)));
  }

  lemma ApprovingPanics(s: Setup, o: Oracle)
    ensures Panics(Approving(s, o)) <==> ChecksBreak(s.approve, OrNil(CurrentPR(o)), Shown(o, 1, OrNil(CurrentPR(o))))
  {
    if s.approve.Some? {
      ChecksSpec(false, OrNil(CurrentPR(o)), s.approve.value, ForApprove, Shown(o, 1, OrNil(CurrentPR(o))));
    }
    ThenPanics(GateStep(o, ApproveChecks(s, o)), Approval(o));
  }

  lemma MergeGatePanics(s: Setup, o: Oracle)
    requires CurrentPR(o).Some?
    ensures Panics(GateStep(o, MergeConditions(s, o))) <==> NilRule(s.merge, CurrentPR(o).value)
  {
    if s.merge.Some? {
      ConditionsSpec(false, CurrentPR(o).value, s.merge.value, ForMerge, Shown(o, 2, CurrentPR(o).value));
    }
  }

  lemma AwaitRunsPanics(o: Oracle)
    ensures !Panics(AwaitRuns(o))
  {
    PRChecksDecided(TEN_BY_THE_MINUTE, MainQuery(OrNil(CurrentPR(o))), MERGEABLE_STATES, o.mainRuns.0, o.mainRuns.1);
    PRChecksDecided(TEN_BY_THE_MINUTE, BranchQuery(OrNil(CurrentPR(o))), MERGEABLE_STATES, o.headRuns.0, o.headRuns.1);
    ThenPanics(WaitStep(o, MainWait(o), Unpassed(o)), WaitStep(o, HeadWait(o), Unpassed(o)));
  }

  lemma FinishPanics(s: Setup, o: Oracle)
    ensures Panics(Finish(s, o)) <==> ChecksBreak(s.merge, FirstPR(o), Shown(o, 3, FirstPR(o)))
  {
    if s.merge.Some? {
      ChecksSpec(false, FirstPR(o), s.merge.value, ForMerge, Shown(o, 3, FirstPR(o)));
    }
    ThenPanics(GateStep(o, MergeChecks(s, o)), Merging(s, o));
  }

  lemma ApprovedPanics(s: Setup, o: Oracle)
    requires CurrentPR(o).Some?
    ensures Panics(Approved(s, o)) <==>
            || NilRule(s.merge, CurrentPR(o).value)
            || (RunsDue(s, o) && ChecksBreak(s.merge, FirstPR(o), Shown(o, 3, FirstPR(o))))
  {
    var gate := GateStep(o, MergeConditions(s, o));
    MergeGatePanics(s, o);
    MergeGateMeans(s, o);
    AwaitRunsPanics(o);
    AwaitRunsMeans(o);
    FinishPanics(s, o);
    ThenPanics(gate, Then(AwaitRuns(o), Finish(s, o)));
    ThenPanics(AwaitRuns(o), Finish(s, o));
  }

  /** A run crashes exactly when one of its queries meets what it crashes on: the first
      gate a nil rule; the wait for the status checks a failed page of check runs; the
      second gate a nil rule or statuses that cannot be read; after the approval the
      third gate a nil rule, or the last one again either of both. */
  lemma PanicsIff(s: Setup, o: Oracle)
    ensures Panics(Reviewed(s, o)) <==>
            || (Opened(o) && NilRule(s.approve, FirstPR(o)))
            || (Approvable(s, o) && BranchUpdated(o) && CurrentOpen(o) && StatusesBreak(o))
            || (ChecksDue(s, o) && var pr := CurrentPR(o).value;
                ChecksBreak(s.approve, pr, o.gates(1, pr.number, pr.headSha)))
            || (ApprovalDue(s, o) && o.approved && NilRule(s.merge, CurrentPR(o).value))
            || (ApprovalDue(s, o) && o.approved && RunsDue(s, o)
                && ChecksBreak(s.merge, FirstPR(o), o.gates(3, FirstPR(o).number, FirstPR(o).headSha)))
  {
    PrepareMeans(s, o);
    PreparePanics(s, o);
    AwaitChecksMeans(o);
    AwaitChecksPanics(o);
    ReadyNeedsPullRequest(o);
    RunPanics(Prepare(s, o), AwaitChecks(o), Approving(s, o), Approved(s, o));
    if Prepare(s, o).Go? && AwaitChecks(o).Go? {
      ApprovingMeans(s, o);
      ApprovingPanics(s, o);
      ApprovedPanics(s, o);
    }
  }

  lemma RunPanics(a: Step, b: Step, c: Step, d: Step)
    ensures Panics(Then(a, Then(b, Then(c, d)))) <==>
            Panics(a) || (a.Go? && (Panics(b) || (b.Go? && (Panics(c) || (c.Go? && Panics(d))))))
  {
    ThenPanics(c, d);
    ThenPanics(b, Then(c, d));
    ThenPanics(a, Then(b, Then(c, d)));
  }

  // ---------- every way a run can go ----------

  // The stages of a run, exactly; a run is what the stages come to one after the other.

  /** The first stage: clients and first fetch, closed pull request, first gate, repository
      and the approver's client. */
  lemma PrepareIs(s: Setup, o: Oracle)
    ensures Prepare(s, o) ==
            var pr := FirstPR(o);
            if !o.installationClient || !o.githubClient || FirstFetch(o).None? then Stop([], Returned(Some(Plain)))
            else if pr.closed then Stop([], Returned(None))
            else if NilRule(s.approve, pr) then Stop([], Panicked)
            else if o.repo.None? then Stop([], Returned(Some(Plain)))
            else if s.approve.None? || !ConditionsMet(pr, s.approve.value, o.gates(0, pr.number, pr.headSha)) then
              Stop([AddComment(o.commented)], Returned(None))
            else if s.approver != [] && !o.userClient then Stop([], Returned(Some(Plain)))
            else Go([])
  {
    var pr := FirstPR(o);
    if s.approve.Some? {
      ConditionsSpec(false, pr, s.approve.value, ForApprove, o.gates(0, pr.number, pr.headSha));
    }
  }

  /** What an answer of a wait leads to: an error is commented. */
  function AfterAnswer(o: Oracle, answer: Option<Answer>): Step {
    match answer
    case None => Stop([], Pending)
    case Some(Crashed) => Stop([], Panicked)
    case Some(Answer(_, Some(error))) => Stop([AddComment(o.commented)], Returned(Some(Templated(error))))
    case Some(Answer(_, None)) => Go([])
  }

  lemma WaitStepIs(o: Oracle, answer: Option<Answer>, unpassed: Ending)
    requires answer.Some? ==> Decided(answer.value)
    ensures WaitStep(o, answer, unpassed) == AfterAnswer(o, answer)
  {
  }

  /** Updating the branch and waiting for the status checks. */
  lemma AwaitChecksIs(o: Oracle)
    ensures var answer :=
              AnswerOf(StatusChecks(DEFAULT_LIMITS, o.pulls, NumberOf(CurrentPR(o)), o.statuses.0, o.statuses.1));
            AwaitChecks(o) ==
            if IsBehind(o) && o.update == UpdateError then
              Stop([UpdateBranch(false), AddComment(o.commented)], Returned(Some(Templated(ApiError))))
            else if IsBehind(o) && RebaseEnd(o).None? then Stop([UpdateBranch(true)], Pending)
            else
              var rest := if CurrentOpen(o) then AfterAnswer(o, answer) else Stop([], Returned(None));
              rest.(effects := Updates(o) + rest.effects)
  {
    UpdateIs(o);
    StatusChecksDecided(DEFAULT_LIMITS, o.pulls, NumberOf(CurrentPR(o)), o.statuses.0, o.statuses.1);
    WaitStepIs(o, StatusWait(o), DONE);
    assert forall x: seq<Effect> :: [] + x == x && x + [] == x;
  }

  /** The second gate, and the approval. */
  lemma ApprovingIs(s: Setup, o: Oracle)
    requires CurrentPR(o).Some?
    ensures var pr := CurrentPR(o).value;
            var evidence := o.gates(1, pr.number, pr.headSha);
            Approving(s, o) ==
            if ChecksBreak(s.approve, pr, evidence) then Stop([], Panicked)
            else if s.approve.None? || !ChecksMet(false, pr, s.approve.value, evidence) then
              Stop([AddComment(o.commented)], Returned(None))
            else if !o.approved then
              Stop([Approve(false), AddComment(o.commented)], Returned(Some(Templated(NotMergable))))
            else Go([Approve(true)])
  {
    var pr := CurrentPR(o).value;
    if s.approve.Some? {
      ChecksSpec(false, pr, s.approve.value, ForApprove, o.gates(1, pr.number, pr.headSha));
    }
  }

  /** The third gate. */
  lemma MergeGateIs(s: Setup, o: Oracle)
    requires CurrentPR(o).Some?
    ensures var pr := CurrentPR(o).value;
            GateStep(o, MergeConditions(s, o)) ==
            if NilRule(s.merge, pr) then Stop([], Panicked)
            else if s.merge.None? || !ConditionsMet(pr, s.merge.value, o.gates(2, pr.number, pr.headSha)) then
              Stop([AddComment(o.commented)], Returned(None))
            else Go([])
  {
    var pr := CurrentPR(o).value;
    if s.merge.Some? {
      ConditionsSpec(false, pr, s.merge.value, ForMerge, o.gates(2, pr.number, pr.headSha));
    }
  }

  /** The waits for the base branch and for the head branch. */
  lemma AwaitRunsIs(o: Oracle)
    requires CurrentPR(o).Some?
    ensures var pr := CurrentPR(o).value;
            var ofBase, ofHead := RunQuery(true, pr.baseRef, pr.baseSha), RunQuery(false, pr.headRef, pr.headSha);
            var main := AnswerOf(PRChecks(TEN_BY_THE_MINUTE, ofBase, {Success, Skipped}, o.mainRuns.0, o.mainRuns.1));
            var head := AnswerOf(PRChecks(TEN_BY_THE_MINUTE, ofHead, {Success, Skipped}, o.headRuns.0, o.headRuns.1));
            AwaitRuns(o) == if AfterAnswer(o, main).Stop? then AfterAnswer(o, main) else AfterAnswer(o, head)
  {
    var pr := CurrentPR(o).value;
    PRChecksDecided(TEN_BY_THE_MINUTE, MainQuery(pr), MERGEABLE_STATES, o.mainRuns.0, o.mainRuns.1);
    PRChecksDecided(TEN_BY_THE_MINUTE, BranchQuery(pr), MERGEABLE_STATES, o.headRuns.0, o.headRuns.1);
    WaitStepIs(o, MainWait(o), Unpassed(o));
    WaitStepIs(o, HeadWait(o), Unpassed(o));
  }

  /** The last gate, and the merge. */
  lemma FinishIs(s: Setup, o: Oracle)
    ensures var pr, merge := FirstPR(o), Merge(MethodUsed(s, o), o.pulls(o.number, o.mergedAt).headSha, o.merged);
            var evidence := o.gates(3, pr.number, pr.headSha);
            Finish(s, o) ==
            if ChecksBreak(s.merge, pr, evidence) then Stop([], Panicked)
            else if s.merge.None? || !ChecksMet(false, pr, s.merge.value, evidence) then
              Stop([AddComment(o.commented)], Returned(None))
            else if !o.merged then Stop([merge, AddComment(o.commented)], Returned(Some(Templated(NotMergable))))
            else Stop([merge], Returned(None))
  {
    var pr := FirstPR(o);
    if s.merge.Some? {
      ChecksSpec(false, pr, s.merge.value, ForMerge, o.gates(3, pr.number, pr.headSha));
    }
  }

  /** The next stage is asked only if this one lets the run go on, and its effects come
      after. */
  function Following(a: Step, b: Step): Step {
    if a.Stop? then a else b.(effects := a.effects + b.effects)
  }

  lemma ThenFollows(a: Step, b: Step)
    ensures Then(a, b) == Following(a, b)
  {
    assert [] + b.effects == b.effects;
  }

  /** A run is its six stages, one after the other. */
  lemma StagesFollow(s: Setup, o: Oracle)
    ensures Reviewed(s, o) ==
            Following(Prepare(s, o), Following(AwaitChecks(o), Following(Approving(s, o),
            Following(GateStep(o, MergeConditions(s, o)), Following(AwaitRuns(o), Finish(s, o))))))
  {
    StepsFollow(Prepare(s, o), AwaitChecks(o), Approving(s, o), GateStep(o, MergeConditions(s, o)), AwaitRuns(o),
                Finish(s, o));
  }

  lemma StepsFollow(a: Step, b: Step, c: Step, d: Step, e: Step, f: Step)
    ensures Then(a, Then(b, Then(c, Then(d, Then(e, f))))) ==
            Following(a, Following(b, Following(c, Following(d, Following(e, f)))))
  {
    ThenFollows(e, f);
    ThenFollows(d, Then(e, f));
    ThenFollows(c, Then(d, Then(e, f)));
    ThenFollows(b, Then(c, Then(d, Then(e, f))));
    ThenFollows(a, Then(b, Then(c, Then(d, Then(e, f)))));
  }

  // ---------- the order of effects ----------

  function Rank(e: Effect): nat {
    match e
    case UpdateBranch(_) => 0
    case Approve(_) => 1
    case Merge(_, _, _) => 2
    case AddComment(_) => 3
  }

  /** An optional update, approval, merge and comment, in this order. Only a comment
      follows a failed effect, nothing follows a successful merge, and a merge comes
      right after a granted approval. */
  ghost predicate Grammar(t: seq<Effect>) {
    && (forall i, j | 0 <= i < j < |t| :: Rank(t[i]) < Rank(t[j]))
    && (forall i | 0 <= i < |t| && !t[i].AddComment? && !t[i].ok :: i + 2 == |t| && t[i + 1].AddComment?)
    && (forall i | 0 <= i < |t| && t[i].Merge? :: i > 0 && t[i - 1] == Approve(true) && (t[i].ok ==> i + 1 == |t|))
  }

  /** Any effect after this one has a rank above `r`. */
  predicate EndsBelow(t: seq<Effect>, r: nat) {
    t == [] || Rank(t[|t| - 1]) < r
  }

  /** A word goes on with a successful effect of a higher rank, or with a comment. */
  lemma Longer(t: seq<Effect>, e: Effect)
    requires Grammar(t) && EndsBelow(t, Rank(e)) && !MergedLast(t) && (e.ok || e.AddComment?)
    requires e.Merge? ==> t != [] && t[|t| - 1] == Approve(true)
    ensures Grammar(t + [e])
  {
    var n, u := |t|, t + [e];
    forall i, j | 0 <= i < j < |u| ensures Rank(u[i]) < Rank(u[j]) {
      assert i < n - 1 ==> Rank(t[i]) < Rank(t[n - 1]);
    }
  }

  /** A word ends with a failed effect of a higher rank and a comment on it. */
  lemma LongerBy(t: seq<Effect>, e: Effect, c: Effect)
    requires Grammar(t) && EndsBelow(t, Rank(e)) && !MergedLast(t) && !e.ok && !e.AddComment? && c.AddComment?
    requires e.Merge? ==> t != [] && t[|t| - 1] == Approve(true)
    ensures Grammar(t + [e, c])
  {
    var n, u := |t|, t + [e, c];
    forall i, j | 0 <= i < j < |u| ensures Rank(u[i]) < Rank(u[j]) {
      assert i < n - 1 ==> Rank(t[i]) < Rank(t[n - 1]);
    }
  }

  lemma UpdatesGrammatical(o: Oracle)
    ensures Grammar(Updates(o)) && EndsBelow(Updates(o), 1) && !MergedLast(Updates(o))
  {
  }

  lemma UpdateTail(o: Oracle, c: Effect)
    requires c.AddComment?
    ensures Grammar(Updates(o)) && Grammar(Updates(o) + [c]) && Grammar([c]) && Grammar([UpdateBranch(false), c])
  {
    UpdatesGrammatical(o);
    Longer(Updates(o), c);
    Longer([], c);
    LongerBy([], UpdateBranch(false), c);
    assert [] + [c] == [c] && [] + [UpdateBranch(false), c] == [UpdateBranch(false), c];
  }

  lemma ApproveTail(o: Oracle, c: Effect)
    requires c.AddComment?
    ensures Grammar(Updates(o) + [Approve(true)]) && Grammar(Updates(o) + [Approve(true)] + [c])
    ensures Grammar(Updates(o) + [Approve(false), c])
  {
    UpdatesGrammatical(o);
    LongerBy(Updates(o), Approve(false), c);
    Longer(Updates(o), Approve(true));
    Longer(Updates(o) + [Approve(true)], c);
  }

  /** What a successful and a failed merge leave behind. */
  function MergeEffects(m: MergeMethod, o: Oracle): seq<Effect> {
    [Merge(m, MergedHead(o), o.merged)] + if o.merged then [] else [AddComment(o.commented)]
  }

  lemma MergeTail(o: Oracle, m: MergeMethod)
    ensures Grammar(Updates(o) + [Approve(true)] + MergeEffects(m, o))
  {
    var before := Updates(o) + [Approve(true)];
    ApproveTail(o, AddComment(o.commented));
    if o.merged {
      assert MergeEffects(m, o) == [Merge(m, MergedHead(o), true)];
      Longer(before, Merge(m, MergedHead(o), true));
    } else {
      assert MergeEffects(m, o) == [Merge(m, MergedHead(o), false), AddComment(o.commented)];
      LongerBy(before, Merge(m, MergedHead(o), false), AddComment(o.commented));
    }
  }

  lemma EndsGrammatical(o: Oracle, approvable: bool, due: bool, mergeDue: bool, m: MergeMethod, merging: Step,
                        run: Step)
    requires Ends(o, approvable, due, mergeDue, merging, run)
    requires merging.effects == MergeEffects(m, o)
    ensures Grammar(run.effects)
  {
    MergeTail(o, m);
    ApproveTail(o, AddComment(o.commented));
    UpdateTail(o, AddComment(o.commented));
  }

  /** The effects of every run are a word of the grammar. */
  lemma EveryRunIsGrammatical(s: Setup, o: Oracle)
    ensures Grammar(Reviewed(s, o).effects)
  {
    RunMeans(s, o);
    EndsGrammatical(o, Approvable(s, o), ApprovalDue(s, o), MergeDue(s, o), MethodUsed(s, o), Merging(s, o),
                    Reviewed(s, o));
  }

  // ---------- approvals and merges ----------

  ghost predicate Approves(t: seq<Effect>) {
    exists i | 0 <= i < |t| :: t[i].Approve?
  }

  ghost predicate Merges(t: seq<Effect>) {
    exists i | 0 <= i < |t| :: t[i].Merge?
  }

  lemma EndsWithEffects(o: Oracle, approvable: bool, due: bool, mergeDue: bool, m: MergeMethod, merging: Step,
                        run: Step)
    requires Ends(o, approvable, due, mergeDue, merging, run) && merging.effects == MergeEffects(m, o)
    ensures Approves(run.effects) <==> due
    ensures Merges(run.effects) <==> due && o.approved && mergeDue
    ensures Merges(run.effects) ==> run.effects == Updates(o) + [Approve(true)] + MergeEffects(m, o)
  {
    var n := |Updates(o)|;
    if due {
      assert run.effects[n] == Approve(o.approved);
      if o.approved && mergeDue {
        assert run.effects[n + 1] == Merge(m, MergedHead(o), o.merged);
      }
    }
  }

  /** A run requests an approval exactly when one is due. */
  lemma ApprovesIff(s: Setup, o: Oracle)
    ensures Approves(Reviewed(s, o).effects) <==> ApprovalDue(s, o)
  {
    RunMeans(s, o);
    EndsWithEffects(o, Approvable(s, o), ApprovalDue(s, o), MergeDue(s, o), MethodUsed(s, o), Merging(s, o),
                    Reviewed(s, o));
  }

  /** A run requests a merge exactly when approve and merge are configured, all four
      gates are met on the pull requests they are given, all three waits passed, and
      this run was granted an approval just before. */
  lemma MergesIff(s: Setup, o: Oracle)
    ensures Merges(Reviewed(s, o).effects) <==> ApprovalDue(s, o) && o.approved && MergeDue(s, o)
    ensures Merges(Reviewed(s, o).effects) ==>
              Reviewed(s, o).effects == Updates(o) + [Approve(true)] + MergeEffects(MethodUsed(s, o), o)
  {
    RunMeans(s, o);
    EndsWithEffects(o, Approvable(s, o), ApprovalDue(s, o), MergeDue(s, o), MethodUsed(s, o), Merging(s, o),
                    Reviewed(s, o));
  }

  /** The merge method is empty or allowed by the repository, and the configured one
      (by default a merge commit) if that is allowed. */
  lemma MergeMethodIsAllowed(s: Setup, o: Oracle)
    requires o.repo.Some?
    ensures var m := MethodUsed(s, o);
            && (m.NoMethod? <==> forall a :: !Allowed(o.repo.value, a))
            && (!m.NoMethod? ==> Allowed(o.repo.value, m))
            && var configured := if s.mergeMethod == NoMethod then MergeCommit else s.mergeMethod;
               (Allowed(o.repo.value, configured) ==> m == configured)
  {
    MergeMethodMeans(DefaultMethod(s.mergeMethod), o.repo.value);
  }

  ghost function Remarks(t: seq<Effect>): nat {
    if t == [] then 0 else Remarks(t[..|t| - 1]) + if t[|t| - 1].AddComment? then 1 else 0
  }

  lemma {:induction false} GrammaticalRemarks(t: seq<Effect>)
    requires Grammar(t)
    ensures Remarks(t) == if Commented(t) then 1 else 0
  {
    if t != [] {
      var before, last := t[..|t| - 1], |t| - 1;
      forall i | 0 <= i < last ensures Rank(before[i]) < 3 {
        assert Rank(t[i]) < Rank(t[last]);
      }
      NoRemarks(before);
    }
  }

  lemma {:induction false} NoRemarks(t: seq<Effect>)
    requires forall i | 0 <= i < |t| :: Rank(t[i]) < 3
    ensures Remarks(t) == 0
  {
    if t != [] {
      NoRemarks(t[..|t| - 1]);
    }
  }

  lemma NilShape(t: seq<Effect>, closed: bool)
    requires Speaks(Stop(t, DONE), closed, true) && !closed && Grammar(t)
    ensures if Commented(t) then Remarks(t) == 1 && !MergedLast(t) else Remarks(t) == 0 && MergedLast(t)
  {
    GrammaticalRemarks(t);
  }

  /** A run that returns nil without having found the pull request closed either
      merged it and left no comment, or tried to leave exactly one. */
  lemma NilMeans(s: Setup, o: Oracle, t: seq<Effect>)
    requires Reviewed(s, o) == Stop(t, DONE) && !SeenClosed(o)
    ensures if Commented(t) then Remarks(t) == 1 && !MergedLast(t) else Remarks(t) == 0 && MergedLast(t)
  {
    RunSpeaks(s, o);
    EveryRunIsGrammatical(s, o);
    NilShape(t, SeenClosed(o));
  }

  /** What a merge implies of the workflows of both branches, on which the current pull
      request lies: at some round all runs reported for them had succeeded or were
      skipped, on the path with a last merged pull request the latest of each workflow. */
  lemma MergedBranchesClear(s: Setup, o: Oracle)
    requires Merges(Reviewed(s, o).effects)
    ensures CurrentPR(o).Some?
    ensures var pr := CurrentPR(o).value;
            var query := RunQuery(true, pr.baseRef, pr.baseSha);
            exists round | round in o.mainRuns.1 :: RunsAllowed(query, {Success, Skipped}, round.world(query))
    ensures var pr := CurrentPR(o).value;
            var query := RunQuery(false, pr.headRef, pr.headSha);
            exists round | round in o.headRuns.1 :: RunsAllowed(query, {Success, Skipped}, round.world(query))
  {
    MergesIff(s, o);
    var pr := CurrentPR(o).value;
    ClearRound(RunQuery(true, pr.baseRef, pr.baseSha), o.mainRuns.0, o.mainRuns.1);
    ClearRound(RunQuery(false, pr.headRef, pr.headSha), o.headRuns.0, o.headRuns.1);
  }

  /** What an approval implies of the statuses: some snapshot was taken in which every
      page of commit statuses and of check runs was good, and every required name among
      them. It is of the head of the current pull request's number at that moment. */
  lemma ApprovedPagesReady(s: Setup, o: Oracle)
    requires Approves(Reviewed(s, o).effects)
    ensures exists snapshot | snapshot in o.statuses.1 :: PagesReady(o.pulls, NumberOf(CurrentPR(o)), snapshot)
  {
    ApprovesIff(s, o);
    StatusChecksPass(DEFAULT_LIMITS, o.pulls, NumberOf(CurrentPR(o)), o.statuses.0, o.statuses.1);
    PassedPages(DEFAULT_LIMITS, o.pulls, NumberOf(CurrentPR(o)), o.statuses.0, o.statuses.1);
  }

  lemma ClearRound(query: RunQuery, start: int, rounds: seq<Round>)
    requires exists n: nat :: ClearsAt(TEN_BY_THE_MINUTE, query, {Success, Skipped}, start, rounds, n)
    ensures exists round | round in rounds :: RunsAllowed(query, {Success, Skipped}, round.world(query))
  {
    var n: nat :| ClearsAt(TEN_BY_THE_MINUTE, query, {Success, Skipped}, start, rounds, n);
    ClearsMeans(query, {Success, Skipped}, rounds[n].world(query));
    assert rounds[n] in rounds;
  }

  /** When the waits of a review give up, their rounds counted from 0: those for the
      branches at their tenth attempt or after ten minutes, the others after ten minutes,
      as 2^31 - 1 attempts stand for no limit. The first pause for a minute, the others
      for twenty seconds. */
  lemma ReviewLimits(start: int, now: int, i: nat)
    ensures Exceeded(At(Initialised(TEN_BY_THE_MINUTE), i), start, now) <==> i >= 10 || now > start + 600_000_000_000
    ensures Exceeded(At(Initialised(DEFAULT_LIMITS), i), start, now) <==>
            i >= 2_147_483_647 || now > start + 600_000_000_000
    ensures Exceeded(At(Initialised(TEN_MINUTE_LIMITS), i), start, now) <==>
            i >= 2_147_483_647 || now > start + 600_000_000_000
    ensures Initialised(TEN_BY_THE_MINUTE).pauseTime == 60_000_000_000
    ensures Initialised(DEFAULT_LIMITS).pauseTime == Initialised(TEN_MINUTE_LIMITS).pauseTime == 20_000_000_000
  {
  }

  /** Each of the two waits for the workflows of a branch takes at most 11 rounds, and
      at most 77 listings of workflow runs. */
  lemma BranchWaitBounded(query: RunQuery, start: int, rounds: seq<Round>)
    ensures var w := PRChecks(TEN_BY_THE_MINUTE, query, MERGEABLE_STATES, start, rounds);
            !w.Waiting? ==> w.polls <= 11 && w.polls <= |rounds| && ListedInRounds(query, rounds, w.polls) <= 77
  {
    PRChecksBounded(TEN_BY_THE_MINUTE, query, MERGEABLE_STATES, start, rounds);
  }

  lemma DefaultPauses()
    ensures Initialised(DEFAULT_LIMITS).pauseTime > 0
    ensures Initialised(DEFAULT_LIMITS).maxWaitTime / Initialised(DEFAULT_LIMITS).pauseTime == 30
  {
  }

  lemma LateFromRound31(pulls: Pulls, number: nat, snapshots: seq<Snapshot>, n: nat)
    requires n <= |snapshots| && Initialised(DEFAULT_LIMITS).pauseTime > 0
    requires LateUnderWay(Initialised(DEFAULT_LIMITS), pulls, number, snapshots, n)
    ensures forall j | 31 <= j < n :: UnderWay(StatsOf(pulls, number, snapshots[j]))
  {
    DefaultPauses();
  }

  /** The wait for the status checks of a review sleeps at most 31 times more than it
      meets a status under way; from round 31 on, only those rounds keep it going. */
  lemma StatusWaitBounded(o: Oracle)
    requires Paused(Initialised(DEFAULT_LIMITS), o.statuses.0,
                    SnapshotPolls(o.pulls, NumberOf(CurrentPR(o)), o.statuses.1))
    ensures var number, snapshots := NumberOf(CurrentPR(o)), o.statuses.1;
            var w := StatusChecks(DEFAULT_LIMITS, o.pulls, number, o.statuses.0, snapshots);
            !w.Waiting? ==>
              && 0 < w.polls <= |snapshots|
              && w.polls - 1 <= Unlimited(SnapshotPolls(o.pulls, number, snapshots), w.polls - 1) + 31
              && forall j | 31 <= j < w.polls - 1 :: UnderWay(StatsOf(o.pulls, number, snapshots[j]))
  {
    var number, snapshots := NumberOf(CurrentPR(o)), o.statuses.1;
    var w := StatusChecks(DEFAULT_LIMITS, o.pulls, number, o.statuses.0, snapshots);
    DefaultPauses();
    StatusChecksBounded(DEFAULT_LIMITS, o.pulls, number, o.statuses.0, snapshots);
    if !w.Waiting? {
      LateFromRound31(o.pulls, number, snapshots, w.polls - 1);
    }
  }
}
