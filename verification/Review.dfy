/**
 The review of one pull request (pkg/review/review.go). Everything GitHub and the
 clock answer during a run is an oracle; the remote effects a run attempts are
 recorded in order.
 */
module Review {
  import opened Results
  import opened GitHub
  import opened Effects
  import opened Statuses
  import opened Times
  import opened Polling
  import opened Workflows
  import opened Waits
  import opened Rules
  import opened Validators
  import opened Gates

  // ---------- configuration (pkg/config/repoconfig.go) ----------

  datatype ApproveSection = ApproveSection(approver: string, include_: Option<Include>)

  class MergeSection {
    var Method: MergeMethod
    const include_: Option<Include>

    constructor (m: MergeMethod, include_: Option<Include>)
      ensures Method == m && this.include_ == include_
    {
      Method := m;
      this.include_ := include_;
    }
  }

  datatype AppConfig = AppConfig(approve: Option<ApproveSection>, merge: Option<MergeSection>)

  predicate NoApprove(cfg: AppConfig) {
    cfg.approve.None? || cfg.approve.value.include_.None?
  }

  predicate NoMerge(cfg: AppConfig) {
    cfg.merge.None? || cfg.merge.value.include_.None?
  }

  /** What a run needs to know of the configuration. */
  datatype Setup = Setup(
    approver: string,
    approve: Option<Policy>,  // of its section, if that has an include
    merge: Option<Policy>,
    mergeMethod: MergeMethod)

  ghost function SetupOf(cfg: AppConfig): Setup
    reads if cfg.merge.Some? then {cfg.merge.value} else {}
  {
    var approve := if cfg.approve.Some? then cfg.approve.value.include_ else None;
    var merge := if cfg.merge.Some? then cfg.merge.value.include_ else None;
    Setup(if cfg.approve.Some? then cfg.approve.value.approver else [],
          if approve.Some? then Some(PolicyOf(approve.value)) else None,
          if merge.Some? then Some(PolicyOf(merge.value)) else None,
          if cfg.merge.Some? then cfg.merge.value.Method else NoMethod)
  }

  /** The rule objects of both sections. */
  ghost function RuleObjects(cfg: AppConfig): set<Branch> {
    (if NoApprove(cfg) then {} else cfg.approve.value.include_.value.branches.Values) +
    (if NoMerge(cfg) then {} else cfg.merge.value.include_.value.branches.Values)
  }

  /** The configuration is tree-shaped, as after decoding. */
  ghost predicate WellFormed(cfg: AppConfig) {
    && (!NoApprove(cfg) ==> Distinct(cfg.approve.value.include_.value))
    && (!NoMerge(cfg) ==> Distinct(cfg.merge.value.include_.value))
  }

  function DefaultMethod(m: MergeMethod): MergeMethod {
    if m.NoMethod? then MergeCommit else m
  }

  /** GetMerge: the default method is written into the section. */
  method GetMerge(cfg: AppConfig) returns (section: MergeSection)
    modifies if cfg.merge.Some? then {cfg.merge.value} else {}
    ensures section.Method == DefaultMethod(old(SetupOf(cfg)).mergeMethod)
    ensures SetupOf(cfg) ==
            if cfg.merge.Some? then old(SetupOf(cfg)).(mergeMethod := section.Method) else old(SetupOf(cfg))
  {
    match cfg.merge {
      case None =>
        section := new MergeSection(MergeCommit, None);
      case Some(m) =>
        if m.Method.NoMethod? {
          m.Method := MergeCommit;
        }
        section := m;
    }
  }

  // ---------- the world a run meets ----------

  datatype Comparison = Ahead | Behind | Diverged | Identical | OtherComparison

  datatype UpdateAnswer = Updated | Accepted | UpdateError

  /** The answers to the queries of a run. Each is a function of what the query asks. */
  datatype Oracle = Oracle(
    installationClient: bool,
    githubClient: bool,
    number: nat,                               // of the pull request under review
    pulls: Pulls,
    first: Call,                               // the first fetch of the pull request
    repo: Option<Repository>,
    userClient: bool,
    comparison: string -> Option<Comparison>,  // of a commit with the default branch; `None` when it failed
    update: UpdateAnswer,
    rebase: (int, seq<Fetch>),                 // each wait: when it starts, and its rounds
    statuses: (int, seq<Snapshot>),
    approved: bool,
    approvedAt: int,
    mainRuns: (int, seq<Round>),
    headRuns: (int, seq<Round>),
    merged: bool,
    mergedAt: int,                             // when GitHub performs the merge
    commented: bool,
    gates: (nat, nat, string) -> Answers)      // what gate i sees of a pull request and a commit

  datatype Failure = Plain | Templated(error: Error)

  datatype Ending = Returned(error: Option<Failure>) | Pending | Panicked

  /** A stage of the run either ends it or lets it go on, after some effects. */
  datatype Step = Stop(effects: seq<Effect>, outcome: Ending) | Go(effects: seq<Effect>)

  const PROCEED := Go([])
  const DONE := Returned(None)

  function Then(s: Step, next: Step): Step {
    if s.Stop? then s
    else if s == PROCEED then next
    else next.(effects := s.effects + next.effects)
  }

  /** Leave a comment and return. */
  function Comments(o: Oracle, outcome: Ending): Step {
    Stop([AddComment(o.commented)], outcome)
  }

  function IsOutOfDate(comparison: Option<Comparison>): bool {
    comparison.None? || comparison.value.Behind? || comparison.value.Diverged?
  }

  const TEN_MINUTE_LIMITS := Limits(0, 0, TEN_MINUTES, -1)
  const DEFAULT_LIMITS := Limits(0, 0, 0, -1)
  const TEN_BY_THE_MINUTE := Limits(0, MINUTE, 0, 10)
  const MERGEABLE_STATES := {Success, Skipped}

  // What the getters of go-github make of a nil pull request.
  const NIL_PULL_REQUEST := PullRequest(0, false, [], [], [], [], [], [], None)

  function OrNil(pr: Option<PullRequest>): PullRequest {
    if pr.Some? then pr.value else NIL_PULL_REQUEST
  }

  // ---------- the stages of a run, in order ----------

  /** The pull request as first fetched. */
  function FirstFetch(o: Oracle): Option<PullRequest> {
    Fetched(o.pulls, o.number, o.first)
  }

  function FirstPR(o: Oracle): PullRequest {
    OrNil(FirstFetch(o))
  }

  predicate Outdated(o: Oracle) {
    IsOutOfDate(o.comparison(FirstPR(o).headSha))
  }

  /** How the wait for the updated branch ends. */
  function RebaseEnd(o: Oracle): Option<(Option<PullRequest>, Option<Error>)> {
    var (start, fetches) := o.rebase;
    RebaseResult(RebaseWait(TEN_MINUTE_LIMITS, o.pulls, FirstPR(o), start, fetches), o.pulls, FirstPR(o), fetches)
  }

  /** The pull request the run goes on with after the update; nil when its last fetch
      failed. */
  function CurrentPR(o: Oracle): Option<PullRequest> {
    if !Outdated(o) then FirstFetch(o)
    else if RebaseEnd(o).Some? then RebaseEnd(o).value.0
    else None
  }

  /** What gate `i` sees when it looks at this pull request. */
  function Shown(o: Oracle, i: nat, pr: PullRequest): Answers {
    o.gates(i, pr.number, pr.headSha)
  }

  function Opening(o: Oracle): Step {
    if !o.installationClient || !o.githubClient || FirstFetch(o).None? then Stop([], Returned(Some(Plain)))
    else if FirstPR(o).closed then Stop([], DONE)
    else PROCEED
  }

  /** A gate that does not succeed leads to a comment. */
  function GateStep(o: Oracle, report: Report): Step {
    match report
    case Crash => Stop([], Panicked)
    case Report(_, success) => if success then PROCEED else Comments(o, DONE)
  }

  ghost function ApproveConditions(s: Setup, o: Oracle): Report {
    if s.approve.None? then Report([], false)
    else ConditionsReport(false, Some(FirstPR(o)), s.approve.value, ForApprove, Shown(o, 0, FirstPR(o)))
  }

  /** The repository is fetched after the first gate ran, but before it is acted on. */
  ghost function FirstGate(s: Setup, o: Oracle): Step {
    if ApproveConditions(s, o).Report? && o.repo.None? then Stop([], Returned(Some(Plain)))
    else GateStep(o, ApproveConditions(s, o))
  }

  function UserClient(s: Setup, o: Oracle): Step {
    if s.approver != [] && !o.userClient then Stop([], Returned(Some(Plain))) else PROCEED
  }

  /** A timeout of the wait for the updated branch is not looked at. */
  function Update(o: Oracle): Step {
    if !Outdated(o) then PROCEED
    else if o.update.UpdateError? then
      Stop([UpdateBranch(false), AddComment(o.commented)], Returned(Some(Templated(ApiError))))
    else if RebaseEnd(o).None? then Stop([UpdateBranch(true)], Pending)
    else Go([UpdateBranch(true)])
  }

  function StillOpen(o: Oracle): Step {
    if CurrentPR(o).Some? && CurrentPR(o).value.closed then Stop([], DONE) else PROCEED
  }

  /** A wait that fails leads to a comment; so would one that does not pass, with
      `unpassed` returned. */
  function WaitStep(o: Oracle, answer: Option<Answer>, unpassed: Ending): Step {
    match answer
    case None => Stop([], Pending)
    case Some(Crashed) => Stop([], Panicked)
    case Some(Answer(passed, error)) =>
      if error.Some? then Comments(o, Returned(Some(Templated(error.value))))
      else if !passed then Comments(o, unpassed)
      else PROCEED
  }

  function StatusWait(o: Oracle): Option<Answer> {
    AnswerOf(StatusChecks(DEFAULT_LIMITS, o.pulls, NumberOf(CurrentPR(o)), o.statuses.0, o.statuses.1))
  }

  ghost function ApproveChecks(s: Setup, o: Oracle): Report {
    if s.approve.None? then Report([], false)
    else ChecksReport(false, Some(OrNil(CurrentPR(o))), s.approve.value, ForApprove, Shown(o, 1, OrNil(CurrentPR(o))))
  }

  function Approval(o: Oracle): Step {
    if !o.approved then Stop([Approve(false), AddComment(o.commented)], Returned(Some(Templated(NotMergable))))
    else Go([Approve(true)])
  }

  /** The labels of a nil pull request cannot be read. */
  ghost function MergeConditions(s: Setup, o: Oracle): Report {
    if s.merge.None? then Report([], false)
    else if CurrentPR(o).None? then Crash
    else ConditionsReport(false, CurrentPR(o), s.merge.value, ForMerge, Shown(o, 2, CurrentPR(o).value))
  }

  /** Which workflow runs the two waits for branches ask for. */
  function MainQuery(pr: PullRequest): RunQuery {
    RunQuery(true, pr.baseRef, pr.baseSha)
  }

  function BranchQuery(pr: PullRequest): RunQuery {
    RunQuery(false, pr.headRef, pr.headSha)
  }

  function MainWait(o: Oracle): Option<Answer> {
    var query := MainQuery(OrNil(CurrentPR(o)));
    AnswerOf(PRChecks(TEN_BY_THE_MINUTE, query, MERGEABLE_STATES, o.mainRuns.0, o.mainRuns.1))
  }

  function HeadWait(o: Oracle): Option<Answer> {
    var query := BranchQuery(OrNil(CurrentPR(o)));
    AnswerOf(PRChecks(TEN_BY_THE_MINUTE, query, MERGEABLE_STATES, o.headRuns.0, o.headRuns.1))
  }

  /** What returns when a wait did not pass without an error: the comment's error. */
  function Unpassed(o: Oracle): Ending {
    Returned(if o.commented then None else Some(Plain))
  }

  /** The last gate looks at the pull request as first fetched. */
  ghost function MergeChecks(s: Setup, o: Oracle): Report {
    if s.merge.None? then Report([], false)
    else ChecksReport(false, Some(FirstPR(o)), s.merge.value, ForMerge, Shown(o, 3, FirstPR(o)))
  }

  function MethodUsed(s: Setup, o: Oracle): MergeMethod {
    GetMergeMethod(DefaultMethod(s.mergeMethod), if o.repo.Some? then o.repo.value else Repository(None, None, None))
  }

  /** The head when GitHub performs the merge, which names no commit. */
  function MergedHead(o: Oracle): string {
    o.pulls(o.number, o.mergedAt).headSha
  }

  function Merging(s: Setup, o: Oracle): Step {
    if o.merged then Stop([Merge(MethodUsed(s, o), MergedHead(o), true)], DONE)
    else Stop([Merge(MethodUsed(s, o), MergedHead(o), false), AddComment(o.commented)],
              Returned(Some(Templated(NotMergable))))
  }

  /** Opening the pull request, and its first gate. */
  ghost function Prepare(s: Setup, o: Oracle): Step {
    Then(Opening(o), Then(FirstGate(s, o), UserClient(s, o)))
  }

  /** Bringing the branch up to date, and waiting for its status checks. */
  function AwaitChecks(o: Oracle): Step {
    Then(Update(o), Then(StillOpen(o), WaitStep(o, StatusWait(o), DONE)))
  }

  ghost function Approving(s: Setup, o: Oracle): Step {
    Then(GateStep(o, ApproveChecks(s, o)), Approval(o))
  }

  /** The waits for the workflows of both branches. */
  function AwaitRuns(o: Oracle): Step {
    Then(WaitStep(o, MainWait(o), Unpassed(o)), WaitStep(o, HeadWait(o), Unpassed(o)))
  }

  ghost function Finish(s: Setup, o: Oracle): Step {
    Then(GateStep(o, MergeChecks(s, o)), Merging(s, o))
  }

  /** The run from a granted approval on. */
  ghost function Approved(s: Setup, o: Oracle): Step {
    Then(GateStep(o, MergeConditions(s, o)), Then(AwaitRuns(o), Finish(s, o)))
  }

  /** The whole run. */
  ghost function Reviewed(s: Setup, o: Oracle): Step {
    Then(Prepare(s, o), Then(AwaitChecks(o), Then(Approving(s, o), Approved(s, o))))
  }

  // ---------- the run as the source performs it ----------

  /** The remote effects attempted so far. */
  class Trace {
    var effects: seq<Effect>

    constructor ()
      ensures effects == []
    {
      effects := [];
    }

    method Attempt(e: Effect)
      modifies this
      ensures effects == old(effects) + [e]
    {
      effects := effects + [e];
    }
  }

  /** The stage did what it should: its effects were attempted, and the run ends with
      `end` or goes on. */
  ghost predicate Did(before: seq<Effect>, after: seq<Effect>, end: Option<Ending>, step: Step) {
    && after == before + step.effects
    && end == if step.Stop? then Some(step.outcome) else None
  }

  method ValidateApproveConditions(cfg: AppConfig, pr: PullRequest, answers: Answers) returns (r: Option<bool>)
    requires WellFormed(cfg)
    modifies RuleObjects(cfg)
    ensures var report := if NoApprove(cfg) then Report([], false)
                          else ConditionsReport(false, Some(pr), PolicyOf(cfg.approve.value.include_.value),
                                                ForApprove, answers);
            r == if report.Crash? then None else Some(report.success)
  {
    if NoApprove(cfg) {
      return Some(false);
    }
    var results := ValidateConditions(false, Some(pr), cfg.approve.value.include_.value, ForApprove, answers);
    return if results.Some? then Some(results.value.Success) else None;
  }

  method ValidateApproveCommentsAndChecks(cfg: AppConfig, pr: PullRequest, answers: Answers) returns (r: Option<bool>)
    requires WellFormed(cfg)
    modifies RuleObjects(cfg)
    ensures var report := if NoApprove(cfg) then Report([], false)
                          else ChecksReport(false, Some(pr), PolicyOf(cfg.approve.value.include_.value), ForApprove,
                                            answers);
            r == if report.Crash? then None else Some(report.success)
  {
    if NoApprove(cfg) {
      return Some(false);
    }
    var results := ValidateCommentsAndChecks(false, Some(pr), cfg.approve.value.include_.value, ForApprove, answers);
    return if results.Some? then Some(results.value.Success) else None;
  }

  method ValidateMergeConditions(cfg: AppConfig, pr: Option<PullRequest>, answers: Answers) returns (r: Option<bool>)
    requires WellFormed(cfg)
    modifies RuleObjects(cfg)
    ensures var report := if NoMerge(cfg) then Report([], false) else if pr.None? then Crash
                          else ConditionsReport(false, pr, PolicyOf(cfg.merge.value.include_.value), ForMerge, answers);
            r == if report.Crash? then None else Some(report.success)
  {
    if NoMerge(cfg) {
      return Some(false);
    }
    if pr.None? {
      return None;
    }
    var results := ValidateConditions(false, pr, cfg.merge.value.include_.value, ForMerge, answers);
    return if results.Some? then Some(results.value.Success) else None;
  }

  method ValidateMergeCommentsAndChecks(cfg: AppConfig, pr: PullRequest, answers: Answers) returns (r: Option<bool>)
    requires WellFormed(cfg)
    modifies RuleObjects(cfg)
    ensures var report := if NoMerge(cfg) then Report([], false)
                          else ChecksReport(false, Some(pr), PolicyOf(cfg.merge.value.include_.value), ForMerge,
                                            answers);
            r == if report.Crash? then None else Some(report.success)
  {
    if NoMerge(cfg) {
      return Some(false);
    }
    var results := ValidateCommentsAndChecks(false, Some(pr), cfg.merge.value.include_.value, ForMerge, answers);
    return if results.Some? then Some(results.value.Success) else None;
  }

  /** How a run goes on after a gate that crashed, failed or succeeded. */
  method AfterGate(o: Oracle, success: Option<bool>, trace: Trace, ghost report: Report) returns (end: Option<Ending>)
    requires success == if report.Crash? then None else Some(report.success)
    modifies trace
    ensures Did(old(trace.effects), trace.effects, end, GateStep(o, report))
  {
    if success.None? {
      return Some(Panicked);
    }
    if !success.value {
      trace.Attempt(AddComment(o.commented));
      return Some(DONE);
    }
    return None;
  }

  method AfterWait(o: Oracle, answer: Option<Answer>, unpassed: Ending, trace: Trace) returns (end: Option<Ending>)
    modifies trace
    ensures Did(old(trace.effects), trace.effects, end, WaitStep(o, answer, unpassed))
  {
    match answer {
      case None => return Some(Pending);
      case Some(Crashed) => return Some(Panicked);
      case Some(Answer(passed, error)) =>
        if error.Some? {
          trace.Attempt(AddComment(o.commented));
          return Some(Returned(Some(Templated(error.value))));
        }
        if !passed {
          trace.Attempt(AddComment(o.commented));
          return Some(unpassed);
        }
    }
    return None;
  }

  method OpenReview(o: Oracle) returns (end: Option<Ending>)
    ensures Opening(o) == if end.Some? then Stop([], end.value) else PROCEED
  {
    if !o.installationClient {
      return Some(Returned(Some(Plain)));
    }
    if !o.githubClient {
      return Some(Returned(Some(Plain)));
    }
    if FirstFetch(o).None? {
      return Some(Returned(Some(Plain)));
    }
    if FirstPR(o).closed {
      return Some(DONE);
    }
    return None;
  }

  method RunFirstGate(cfg: AppConfig, o: Oracle, trace: Trace) returns (end: Option<Ending>)
    requires WellFormed(cfg)
    modifies trace, RuleObjects(cfg)
    ensures Did(old(trace.effects), trace.effects, end, FirstGate(SetupOf(cfg), o))
  {
    var success := ValidateApproveConditions(cfg, FirstPR(o), Shown(o, 0, FirstPR(o)));
    if success.Some? {
      if o.repo.None? {
        return Some(Returned(Some(Plain)));
      }
    }
    end := AfterGate(o, success, trace, ApproveConditions(SetupOf(cfg), o));
  }

  /** Brings the branch up to date, and yields the pull request to go on with. */
  method UpdateIfNeeded(o: Oracle, trace: Trace) returns (end: Option<Ending>, pr: Option<PullRequest>)
    requires FirstFetch(o).Some?
    modifies trace
    ensures Did(old(trace.effects), trace.effects, end, Update(o))
    ensures end.None? ==> pr == CurrentPR(o)
  {
    pr := FirstFetch(o);
    if IsOutOfDate(o.comparison(pr.value.headSha)) {
      if o.update.UpdateError? {
        trace.Attempt(UpdateBranch(false));
        trace.Attempt(AddComment(o.commented));
        return Some(Returned(Some(Templated(ApiError)))), pr;
      }
      trace.Attempt(UpdateBranch(true));
      var retry := new Retry(TEN_MINUTE_LIMITS);
      var sha, rebased := WaitForRebase(retry, o.pulls, pr.value, o.rebase.0, o.rebase.1);
      match rebased {
        case None => return Some(Pending), pr;
        case Some((updated, error)) => pr := updated;
      }
    }
    return None, pr;
  }

  // How stages are put together.

  lemma DidStop(t0: seq<Effect>, t1: seq<Effect>, end: Option<Ending>, step: Step, next: Step)
    requires Did(t0, t1, end, step) && end.Some?
    ensures Did(t0, t1, end, Then(step, next))
  {
  }

  lemma DidGo(t0: seq<Effect>, t1: seq<Effect>, t2: seq<Effect>, end: Option<Ending>, step: Step, next: Step)
    requires Did(t0, t1, None, step) && Did(t1, t2, end, next)
    ensures Did(t0, t2, end, Then(step, next))
  {
    assert t0 + step.effects + next.effects == t0 + (step.effects + next.effects);
  }

  method RunPrepare(cfg: AppConfig, o: Oracle, trace: Trace) returns (end: Option<Ending>)
    requires WellFormed(cfg)
    modifies trace, RuleObjects(cfg)
    ensures Did(old(trace.effects), trace.effects, end, Prepare(SetupOf(cfg), o))
    ensures end.None? ==> FirstFetch(o).Some? && o.repo.Some?
  {
    end := OpenReview(o);
    if end.Some? {
      return;
    }
    end := RunFirstGate(cfg, o, trace);
    if end.Some? {
      return;
    }
    if !NoApprove(cfg) {
      if cfg.approve.value.approver != [] {
        if !o.userClient {
          return Some(Returned(Some(Plain)));
        }
      }
    }
  }

  method RunAwaitChecks(o: Oracle, trace: Trace) returns (end: Option<Ending>, pr: Option<PullRequest>)
    requires FirstFetch(o).Some?
    modifies trace
    ensures Did(old(trace.effects), trace.effects, end, AwaitChecks(o))
    ensures end.None? ==> pr == CurrentPR(o)
  {
    end, pr := UpdateIfNeeded(o, trace);
    if end.Some? {
      return;
    }
    if pr.Some? {
      if pr.value.closed {
        return Some(DONE), pr;
      }
    }
    var answer := WaitForStatusChecks(DEFAULT_LIMITS, o.pulls, pr, o.statuses.0, o.statuses.1);
    end := AfterWait(o, answer, DONE, trace);
  }

  method RunApproval(o: Oracle, trace: Trace) returns (end: Option<Ending>)
    modifies trace
    ensures Did(old(trace.effects), trace.effects, end, Approval(o))
  {
    trace.Attempt(Approve(o.approved));
    if !o.approved {
      trace.Attempt(AddComment(o.commented));
      return Some(Returned(Some(Templated(NotMergable))));
    }
    return None;
  }

  method RunApproving(cfg: AppConfig, o: Oracle, pr: Option<PullRequest>, trace: Trace) returns (end: Option<Ending>)
    requires WellFormed(cfg) && pr == CurrentPR(o)
    modifies trace, RuleObjects(cfg)
    ensures Did(old(trace.effects), trace.effects, end, Approving(SetupOf(cfg), o))
  {
    ghost var t0, gate := trace.effects, GateStep(o, ApproveChecks(SetupOf(cfg), o));
    var success := ValidateApproveCommentsAndChecks(cfg, OrNil(pr), Shown(o, 1, OrNil(pr)));
    end := AfterGate(o, success, trace, ApproveChecks(SetupOf(cfg), o));
    if end.Some? {
      DidStop(t0, trace.effects, end, gate, Approval(o));
      return;
    }
    ghost var t1 := trace.effects;
    end := RunApproval(o, trace);
    DidGo(t0, t1, trace.effects, end, gate, Approval(o));
  }

  method RunMergeConditions(cfg: AppConfig, o: Oracle, pr: Option<PullRequest>, trace: Trace)
    returns (end: Option<Ending>)
    requires WellFormed(cfg) && pr == CurrentPR(o)
    modifies trace, RuleObjects(cfg)
    ensures Did(old(trace.effects), trace.effects, end, GateStep(o, MergeConditions(SetupOf(cfg), o)))
  {
    var success := ValidateMergeConditions(cfg, pr, Shown(o, 2, OrNil(pr)));
    end := AfterGate(o, success, trace, MergeConditions(SetupOf(cfg), o));
  }

  method RunAwaitRuns(o: Oracle, pr: Option<PullRequest>, trace: Trace) returns (end: Option<Ending>)
    requires pr == CurrentPR(o)
    modifies trace
    ensures Did(old(trace.effects), trace.effects, end, AwaitRuns(o))
  {
    var retry := new Retry(TEN_BY_THE_MINUTE);
    var answer := WaitForPRChecksToPass(retry, MainQuery(OrNil(pr)), MERGEABLE_STATES, o.mainRuns.0, o.mainRuns.1);
    end := AfterWait(o, answer, Unpassed(o), trace);
    if end.Some? {
      return;
    }
    retry := new Retry(TEN_BY_THE_MINUTE);
    answer := WaitForPRChecksToPass(retry, BranchQuery(OrNil(pr)), MERGEABLE_STATES, o.headRuns.0, o.headRuns.1);
    end := AfterWait(o, answer, Unpassed(o), trace);
  }

  method RunMerging(cfg: AppConfig, o: Oracle, trace: Trace) returns (end: Option<Ending>)
    requires o.repo.Some?
    modifies trace, if cfg.merge.Some? then {cfg.merge.value} else {}
    ensures Did(old(trace.effects), trace.effects, end, Merging(old(SetupOf(cfg)), o))
  {
    var section := GetMerge(cfg);
    var mergeMethod := GetMergeMethod(section.Method, o.repo.value);
    trace.Attempt(Merge(mergeMethod, MergedHead(o), o.merged));
    if !o.merged {
      trace.Attempt(AddComment(o.commented));
      return Some(Returned(Some(Templated(NotMergable))));
    }
    return Some(DONE);
  }

  method RunFinish(cfg: AppConfig, o: Oracle, trace: Trace) returns (end: Option<Ending>)
    requires WellFormed(cfg) && o.repo.Some?
    modifies trace, RuleObjects(cfg), if cfg.merge.Some? then {cfg.merge.value} else {}
    ensures Did(old(trace.effects), trace.effects, end, Finish(old(SetupOf(cfg)), o))
  {
    ghost var s, t0 := SetupOf(cfg), trace.effects;
    ghost var gate, rest := GateStep(o, MergeChecks(s, o)), Merging(s, o);
    var success := ValidateMergeCommentsAndChecks(cfg, FirstPR(o), Shown(o, 3, FirstPR(o)));
    end := AfterGate(o, success, trace, MergeChecks(s, o));
    if end.Some? {
      DidStop(t0, trace.effects, end, gate, rest);
      return;
    }
    ghost var t1 := trace.effects;
    end := RunMerging(cfg, o, trace);
    DidGo(t0, t1, trace.effects, end, gate, rest);
  }

  method RunApproved(cfg: AppConfig, o: Oracle, pr: Option<PullRequest>, trace: Trace) returns (end: Option<Ending>)
    requires WellFormed(cfg) && o.repo.Some? && pr == CurrentPR(o)
    modifies trace, RuleObjects(cfg), if cfg.merge.Some? then {cfg.merge.value} else {}
    ensures Did(old(trace.effects), trace.effects, end, Approved(old(SetupOf(cfg)), o))
  {
    ghost var s, t0 := SetupOf(cfg), trace.effects;
    ghost var gate, waits, rest := GateStep(o, MergeConditions(s, o)), AwaitRuns(o), Finish(s, o);
    end := RunMergeConditions(cfg, o, pr, trace);
    if end.Some? {
      DidStop(t0, trace.effects, end, gate, Then(waits, rest));
      return;
    }
    ghost var t1 := trace.effects;
    end := RunAwaitRuns(o, pr, trace);
    if end.Some? {
      DidStop(t1, trace.effects, end, waits, rest);
    } else {
      ghost var t2 := trace.effects;
      end := RunFinish(cfg, o, trace);
      DidGo(t1, t2, trace.effects, end, waits, rest);
    }
    DidGo(t0, t1, trace.effects, end, gate, Then(waits, rest));
  }

  method PullRequestReview(cfg: AppConfig, o: Oracle, trace: Trace) returns (end: Option<Ending>)
    requires WellFormed(cfg)
    modifies trace, RuleObjects(cfg), if cfg.merge.Some? then {cfg.merge.value} else {}
    ensures Did(old(trace.effects), trace.effects, end, Reviewed(old(SetupOf(cfg)), o))
  {
    ghost var s, t0 := SetupOf(cfg), trace.effects;
    ghost var a, b, c, d := Prepare(s, o), AwaitChecks(o), Approving(s, o), Approved(s, o);
    var pr: Option<PullRequest>;
    end := RunPrepare(cfg, o, trace);
    if end.Some? {
      DidStop(t0, trace.effects, end, a, Then(b, Then(c, d)));
      return;
    }
    ghost var t1 := trace.effects;
    end, pr := RunAwaitChecks(o, trace);
    if end.Some? {
      DidStop(t1, trace.effects, end, b, Then(c, d));
    } else {
      ghost var t2 := trace.effects;
      end := RunApproving(cfg, o, pr, trace);
      if end.Some? {
        DidStop(t2, trace.effects, end, c, d);
      } else {
        ghost var t3 := trace.effects;
        end := RunApproved(cfg, o, pr, trace);
        DidGo(t2, t3, trace.effects, end, c, d);
      }
      DidGo(t1, t2, trace.effects, end, b, Then(c, d));
    }
    DidGo(t0, t1, trace.effects, end, a, Then(b, Then(c, d)));
  }
}
