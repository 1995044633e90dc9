# DuneBot: a verified model

DuneBot approves and merges pull requests for a GitHub organisation. This project models the part of it
that decides: the queue that serialises the reviews of a repository, the review itself with its gates, waits
and remote effects, the validator behind the gates, the polling loops, the merge of configuration documents
and the parser for durations. GitHub, the clock and decoded YAML values are parameters: a theorem holds for
whatever they answer.

| file | models |
|---|---|
| `EventQueue.dfy` | `pkg/queue/queue.go`: a state machine whose runs are all interleavings of goroutine steps, and the object whose methods are its steps |
| `ReviewQueue.dfy` | `pkg/review/queue.go`: producer and handler, and what the log of all repositories says about reviews |
| `Review.dfy`, `ReviewLaws.dfy`, `ReviewGaps.dfy` | `pkg/review/review.go`: one review, what every run keeps, and where it guarantees less than it seems to |
| `Rules.dfy`, `Validators.dfy`, `Gates.dfy`, `GateLaws.dfy` | `pkg/validator`: rule selection, single validations, the two gates, and their declarative meaning |
| `Polling.dfy`, `Workflows.dfy`, `Statuses.dfy`, `Waits.dfy`, `WaitLaws.dfy`, `GitHub.dfy` | `pkg/github/client.go`: retry limits, workflow runs, statuses and their pages, the three waits, the merge method |
| `ConfigTree.dfy`, `ConfigHeap.dfy` | `pkg/config/merge.go`: the merge on values, and in place on shared heap objects |
| `Durations.dfy` | `pkg/config/duration.go`: the pattern, its scanner and the 64-bit arithmetic |
| `Compare.dfy` | `pkg/compare/slices.go` and `isSubSet` |
| `Heads.dfy` | how the head of a pull request moves over time |
| `Effects.dfy`, `Results.dfy`, `Sums.dfy`, `Times.dfy` | shared datatypes; sums over maps; units of time |

Code that changes state is a class or a loop here too (`RepositoryQueue`, `Retry`, `ValidationResults`,
`MapNode`, the review and its trace, all loops), and each such method is proved equal to a specification
function or a step; the theorems are about those. Where one method of the source was too long to verify in
one piece it is split at its loop bodies or stages, in the same order.

## How to read the main results

- `EventQueue.InvKept` is the inductive invariant over all steps; `Serialised`, `NoOverlap`, `GracefulShutdown`,
  `ShutdownHandlesAll`, `LeftBehind` and `WorkersDrain` follow from it for every reachable state or run.
- What a theorem concludes is written out where it matters: the queries for workflow runs, the allowed states, the
  times in nanoseconds, the prefix test character by character. It does not call the function that the modelled
  code computes it with.
- The answers of a review (`Review.Oracle`) are functions of what its queries ask: the pull request of a number at
  a time, the comparison of a commit, the workflow runs of a branch and commit, the pages of the statuses of a
  commit, the evidence a gate sees of a number and commit. So what a stage asks for is part of every statement about it.
- `Review.Reviewed` composes the stages of a review; `Review.PullRequestReview` performs them with early
  returns. `ReviewLaws.MergesIff` says exactly when a run asks for a merge. Its terms unfold to the declarative
  meaning of the gates (`GateLaws.ConditionsMet`, `ChecksMet`) and of the waits (`WaitLaws.Ready`, `Clears`, and
  through `ClearsMeans` and `LatestMeans` to the single workflow runs, and `Ready` through `ReadyPages` to the single
  statuses and check runs); how the wait for an updated branch ends is said by `WaitLaws.RebaseMeans`.
  `ReviewLaws.StagesFollow` and the six lemmas on the stages (`PrepareIs` to `FinishIs`) say exactly how every run goes.
  `ReviewLaws.PanicsIff` says exactly when a run crashes.
- `ReviewQueue.EveryMergeWasDue` joins both: in every interleaving of all repositories, each merge in the log
  was due to the review that its event met, under that review's configuration and answers.

## Where the code differs from what it seems to promise

- The error of the wait for an updated branch is assigned to `tmplErr`, but `err` is tested
  (`pkg/review/review.go:174-179`), so a timeout is ignored, and any new head counts as the update.
  `ReviewGaps.NewHeadIff` and `ReviewGaps.ApprovedAfterUpdateIff` give the exact conditions, and
  `ReviewGaps.TimeoutIsLate` says how late a timeout is;
  `ReviewGaps.MergedAfterTimeout` and `ReviewGaps.PushCountsAsUpdate` are runs that approve without an update.
- The last gate uses the pull request fetched before the update (`pkg/review/review.go:117,262`), and the merge
  names no commit (`pkg/github/client.go:368`). `ReviewGaps.JudgedCommitIff` says when the last gate judges the commit
  that the other stages judge, and `ReviewGaps.MergedHeadCheckedIff` when it judges the one that GitHub merges:
  if heads never return to an earlier commit, exactly when the branch was up to date or the wait for its update
  timed out, and the head did not move after the run last looked at it. `ReviewGaps.MergedHeadUnderUpdate` says
  what that comes to when only the run's own update moves the head; `ReviewGaps.PushIsMergedUnchecked` and
  `ReviewGaps.LateUpdateIsMergedUnchecked` are runs, under these hypotheses, that merge a commit the last gate did not
  see.
- A failed fetch has an empty head and counts as updated (`pkg/github/client.go:299-307`). The run then asks for pull
  request 0, fails and leaves a comment (`ReviewGaps.FailedFetchEndsRun`, `ReviewGaps.FailedFetchRun`).
- `WaitForStatusChecks` does not test its limits while a status is in progress (`pkg/github/client.go:659-663`):
  `WaitLaws.StatusChecksBounded` counts those rounds, and `WaitLaws.InProgressNeverEnds` shows that they have no bound.
- `Retry.init` is not idempotent for negative times (`Polling.InitialisedTwice`).
- A scalar or null between two maps makes configuration merging non-associative; `ConfigTree.AssociativeIff`
  says exactly when grouping does not matter.
- In strict mode a selection can hold a nil rule, on which a gate crashes (`GateLaws.CrashesIff`).
- A failed page of check runs crashes the wait for the status checks and a gate that needs statuses
  (`pkg/github/client.go:427-432`, through `pkg/github/pull.go:52`); so the fail-fast mode of that gate, which stops
  before, can pass where the full one crashes (`GateLaws.ModesCanDiffer`).
- An event added after the wait for the workers ended can stay queued for ever; `EventQueue.LeftBehind` says exactly
  which events do.

## Model

| member | source | states |
|---|---|---|
| EventQueue.PrefixInjective | pkg/queue/queue.go:54-56 | two repositories share a queue only if owner and name agree, as owners contain no slash |
| EventQueue.InvKept | pkg/queue/queue.go:64-141 | every step keeps the invariant: one active worker per key, worker and queue go together unless a shutdown abandoned the key, the WaitGroup counts the goroutines, started and queued events make up the added ones, the log is that of sequential processing |
| EventQueue.InvAlways | pkg/queue/queue.go:64-141 | the invariant holds after every run from a state where it holds |
| EventQueue.Serialised | pkg/queue/queue.go:64-122 | in every interleaving the effects of one repository are the whole scripts of its completed events in the order of addition, then perhaps the beginning of the next one |
| EventQueue.LogIsPrefix | pkg/queue/queue.go:64-122 | in every reachable state the log of a repository is a prefix of that of handling its events one after the other, each by the worker that took it |
| EventQueue.NoOverlap | pkg/queue/queue.go:64-122 | events are numbered as they are taken, and along the log of a repository the numbers never decrease; all effects with one number are of the worker that took the event, with no other effect of the repository between them |
| EventQueue.QueuesAndWorkers | pkg/queue/queue.go:71-76 | a worker at the mutex finds its queue in the map, so the branch for a missing key is dead; before the shutdown keys and workers correspond; afterwards exactly the abandoned keys have a queue and no worker |
| EventQueue.EmptyMeansHandled | pkg/queue/queue.go:129-141 | seeing an empty map before the shutdown means every event added so far is handled |
| EventQueue.JoinMeansHandled | pkg/queue/queue.go:129-141 | when the wait for the workers ends, every event added so far is handled, also those added after the map was seen empty |
| EventQueue.GracefulShutdown | pkg/queue/queue.go:124-141 | if nothing is added after that, then every event is handled and no goroutine is left when the channel is closed, whatever the interleaving |
| EventQueue.WatchesOn | pkg/queue/queue.go:129-139 | the waiting loop goes round again if and only if it finds a queue, and by itself never gets past the wait |
| EventQueue.WaitEnds | pkg/queue/queue.go:124-141 | whatever step first gets past the wait finds no goroutine and no queue, with every event added so far handled |
| EventQueue.ShutdownHandlesAll | pkg/queue/queue.go:64-141 | in every run from the start that gets past the wait and adds nothing afterwards, the events handled of each repository are those the run added, in their order, and no goroutine and no queue is left |
| EventQueue.LeftBehind | pkg/queue/queue.go:81-127 | once the shutdown is signalled and the last event added, exactly the queued events are left behind when the goroutines are gone, less the one that a worker already at the mutex takes; so a repository's events are all handled if and only if it has no such event |
| EventQueue.AddStrands | pkg/queue/queue.go:64-91 | an event added after the shutdown is left behind too, unless a worker at the mutex finds it as the only one |
| EventQueue.ShutdownCanStrand | pkg/queue/queue.go:88-91 | a run in which an event added between the end of the wait and the close is left behind |
| EventQueue.AbandonedForever | pkg/queue/queue.go:71-91 | an abandoned repository is never served again, whatever is added |
| EventQueue.WorkDecreases | pkg/queue/queue.go:81-122 | every worker step strictly decreases the weighted sum of pending events and worker places |
| EventQueue.WorkersDrain | pkg/queue/queue.go:64-122 | in every run the workers make at most as many steps as the work left at the start and the events added call for; and when no worker is left every event is handled unless a shutdown was signalled |
| EventQueue.RepositoryQueue.AddEvent | pkg/queue/queue.go:64-79 | the new state is that of the Add step: event appended, worker spawned and counted only when the key was missing |
| EventQueue.RepositoryQueue.ReceiveEvent | pkg/queue/queue.go:81-122 | one action of a worker goroutine is its step of the machine, over queues, counter, workers and histories |
| EventQueue.RepositoryQueue.TakeEvent | pkg/queue/queue.go:93-117 | the section under the mutex pops the first event or deletes the key and leaves |
| EventQueue.RepositoryQueue.ObserveEntries | pkg/queue/queue.go:129-139 | one round of the waiting loop goes on exactly when the map is empty |
| EventQueue.RepositoryQueue.JoinWorkers | pkg/queue/queue.go:140-140 | waiting for the workers ends only at count zero |
| EventQueue.RepositoryQueue.CloseShutdown | pkg/queue/queue.go:124-127 | closing signals the shutdown and changes nothing else |
| ReviewQueue.Enqueue | pkg/review/queue.go:34-45 | a review request becomes an event in the queue of its repository |
| ReviewQueue.HandleEvent | pkg/review/queue.go:47-65 | an event of another type is an error without effects; otherwise the effects and the error are those of the review |
| ReviewQueue.EveryMergeWasDue | pkg/review/queue.go:47-65 | in every interleaving, a merge in the log of a repository was due to the very review, with its configuration and answers, that its event met, and comes right after an approval granted to the same worker for the same event |
| Review.GetMerge | pkg/config/repoconfig.go:98-106 | a missing method is replaced by a merge commit and written into the section |
| Review.ValidateApproveConditions | pkg/validator/validators.go:148-153 | without an approve section or its include the gate fails, else it is the conditions gate on that include |
| Review.ValidateApproveCommentsAndChecks | pkg/validator/validators.go:65-70 | the same for the comments and checks gate |
| Review.ValidateMergeConditions | pkg/validator/validators.go:155-160 | without a merge section or its include the gate fails; on a nil pull request it crashes; else it is the conditions gate |
| Review.ValidateMergeCommentsAndChecks | pkg/validator/validators.go:72-77 | the same for the comments and checks gate |
| Review.UpdateIfNeeded | pkg/review/review.go:162-182 | an outdated branch is updated and waited for, a refused update is commented, the wait's error is not looked at, and the run goes on with the pull request of the last fetch |
| Review.RunPrepare | pkg/review/review.go:82-160 | clients, first fetch, closed check, first gate before the repository fetch, and the approver's client, in this order with their early returns |
| Review.RunAwaitChecks | pkg/review/review.go:162-203 | update, second closed check and the wait for the status checks of the current pull request's number, 0 for a nil one, with their comments and early returns |
| Review.RunApproving | pkg/review/review.go:205-219 | second gate, then the approval, which is commented when it fails |
| Review.RunMergeConditions | pkg/review/review.go:220-225 | third gate on the current pull request, with its comment and early return |
| Review.RunAwaitRuns | pkg/review/review.go:231-260 | the waits for the pushes to the base branch and for the pull request runs of the head branch, each at the commit of the current pull request, with their comments and early returns |
| Review.RunFinish | pkg/review/review.go:262-279 | last gate on the pull request as first fetched, then the merge, which is commented when it fails |
| Review.PullRequestReview | pkg/review/review.go:82-286 | the effects attempted, in order, and what is returned are those of the composed stages, each query asking for what the source asks for |
| ReviewLaws.WaitsAreDecided | pkg/review/review.go:199-203 | the branches for a wait that neither passed nor failed with an error are never taken, in none of the three waits |
| ReviewLaws.RunMeans | pkg/review/review.go:82-286 | how every run ends, given whether it was approvable, approval was due and merging was due: the exact effects up to a final comment |
| ReviewLaws.StagesFollow | pkg/review/review.go:82-286 | a run is its six stages: each is asked only if the one before lets the run go on, and its effects come after |
| ReviewLaws.PrepareIs | pkg/review/review.go:92-160 | exactly how the first stage goes: clients and fetch, closed, crash on a nil rule, repository, first gate with the evidence of the first fetched number and commit, approver's client |
| ReviewLaws.AwaitChecksIs | pkg/review/review.go:162-203 | exactly how updating and the status wait go: updated if and only if the first fetched commit is behind, diverged or could not be compared; a refused update, a closed pull request, and every answer of the wait |
| ReviewLaws.ApprovingIs | pkg/review/review.go:205-219 | exactly how the second gate, on the number and commit gone on with, and the approval go |
| ReviewLaws.MergeGateIs | pkg/review/review.go:220-225 | exactly how the third gate goes, on the same number and commit |
| ReviewLaws.AwaitRunsIs | pkg/review/review.go:231-260 | exactly how the waits for the pushes to the base branch and commit, and for the pull request runs of the head branch and commit, go on their answers, success and skipped being allowed |
| ReviewLaws.FinishIs | pkg/review/review.go:262-279 | exactly how the last gate, on the first fetched number and commit, and the merge of the head at that time go |
| ReviewLaws.EveryRunIsGrammatical | pkg/review/review.go:112-286 | every run attempts an optional update, approval, merge and comment in this order; only a comment follows a failure, nothing follows a successful merge, a merge comes right after a granted approval |
| ReviewLaws.ApprovesIff | pkg/review/review.go:117-221 | an approval is requested if and only if approve is configured, the first two gates hold of the pull requests and commits they are asked about, the branch could be updated and fetched, the pull request is open and its status checks became ready |
| ReviewLaws.MergesIff | pkg/review/review.go:117-280 | a merge is requested if and only if an approval was due and granted, merge is configured, the last two gates hold of the pull requests and commits they are asked about, and the queries for both branches became clear; then the effects are exactly update, approval, merge of the head at that time, and a comment if it fails |
| ReviewLaws.MergedBranchesClear | pkg/review/review.go:231-260 | a merge implies a round in which, of the pushes to the base branch at the base commit, and one in which, of the pull request runs of the head branch at the head commit, every run that counts had succeeded or was skipped |
| ReviewLaws.MergeMethodIsAllowed | pkg/github/client.go:345-374 | the method passed on is empty only if the repository allows none, else allowed, and the configured one or the default if that is allowed |
| ReviewLaws.RunSpeaks | pkg/review/review.go:82-286 | what a run returns tells its comments: nil after a comment, a merge or a closed pull request; an error of a wait, update, approval or merge exactly after a comment; any other error before any effect |
| ReviewLaws.NilMeans | pkg/review/review.go:82-286 | a run that returns nil on a pull request not seen closed either merged it without a comment or attempted exactly one comment |
| ReviewLaws.ApprovedPagesReady | pkg/review/review.go:191-203 | an approval implies a snapshot of the current pull request's number in which no check run page failed, every commit status and check run of every page was good, and every context that the protection of the base branch requires was the name of one |
| ReviewLaws.PanicsIff | pkg/review/review.go:82-286 | a run crashes if and only if the first gate meets a nil rule; or the status wait a failed check run page; or the second gate a nil rule or unreadable statuses; or, after the approval, the third gate a nil rule, or the last gate again either; each when the run comes that far |
| ReviewLaws.BranchWaitBounded | pkg/review/review.go:231-247 | each branch wait of a review takes at most 11 rounds and 77 listings of workflow runs, those of the last merged pull request included |
| ReviewLaws.StatusWaitBounded | pkg/review/review.go:191-191 | the status wait of a review sleeps at most 31 times more than it meets a status under way, and from round 31 on only such rounds keep it going |
| ReviewLaws.ReviewLimits | pkg/review/review.go:174-247 | when the waits of a review give up: for the branches at the tenth attempt or after ten minutes, for the update and the statuses after ten minutes, 2^31 - 1 attempts standing for no limit; and how long they pause |
| ReviewGaps.NewHeadIff | pkg/review/review.go:174-179 | the wait before an approval was not timed out if and only if the head had moved by its last fetch, whoever moved it |
| ReviewGaps.ApprovedAfterUpdateIff | pkg/review/review.go:174-179 | if only the run's own update moves the head, an approval of an outdated branch comes after the update landed if and only if the wait did not time out or the update landed between its last fetch and the approval |
| ReviewGaps.TimeoutIsLate | pkg/github/client.go:308-311 | a timed-out wait checked its limits last more than ten minutes after its start, or had fetched more often than a 32-bit counter allows |
| ReviewGaps.JudgedCommitIff | pkg/review/review.go:117-262 | in a run that approves, the last gate judges the commit that the second and third gate and the wait for the head branch judge if and only if the branch was up to date or the wait for its update timed out |
| ReviewGaps.MergedHeadCurrentIff | pkg/review/review.go:174-271 | if the head never returns to an earlier commit, GitHub merges the commit that those stages judged if and only if the head did not move after the run last looked at it |
| ReviewGaps.MergedHeadCheckedIff | pkg/review/review.go:117-271 | and the one that the last gate judged if and only if, moreover, the branch was up to date or the wait for its update timed out |
| ReviewGaps.MergedHeadChecked | pkg/review/review.go:117-271 | also for heads that return, that is enough for the last gate to have judged what is merged |
| ReviewGaps.MergedHeadUnderUpdate | pkg/review/review.go:117-271 | if only the run's own update moves the head, that is so if and only if the branch was up to date, or the wait timed out and the update did not land before the merge either |
| ReviewGaps.MergedAfterTimeout | pkg/review/review.go:174-179 | a run that approves and merges after the wait for the update timed out, the head never having moved |
| ReviewGaps.PushCountsAsUpdate | pkg/github/client.go:304-307 | a run that approves because a push moved the head, the update never landing |
| ReviewGaps.PushIsMergedUnchecked | pkg/github/client.go:365-374 | a run with a branch up to date that merges a head pushed after the last gate's pull request was fetched |
| ReviewGaps.LateUpdateIsMergedUnchecked | pkg/review/review.go:262-271 | a run that merges an update which landed after the wait for it timed out, and which the last gate did not see |
| ReviewGaps.FailedFetchEndsRun | pkg/github/client.go:299-307 | a failed fetch that counts as the updated branch ends the run with an update, a comment and an API error, as the status wait asks for number 0; nothing is approved |
| ReviewGaps.FailedFetchRun | pkg/github/client.go:299-307 | such a run |
| Rules.AscendingUnique | pkg/validator/validators.go:37-40 | there is one way to sort the keys, so the order in which the map yields them does not matter |
| Rules.LessMeans | pkg/validator/validators.go:38-38 | keys are ordered lexicographically by bytes |
| Rules.MatchedBranchConfig | pkg/validator/validators.go:29-63 | the loop over the sorted keys writes each rule's key and returns the selected rules, a nil one included |
| Rules.SelectedAll | pkg/validator/validators.go:45-62 | without a strict rule whose prefix begins the head ref, exactly the rules whose prefix does, character by character, are selected, in ascending key order |
| Rules.SelectedOne | pkg/validator/validators.go:45-62 | with one, a single rule is selected: the first by key with the longest prefix among the matching rules at or after the first strict match, and every candidate's prefix is a prefix of its; a nil rule if all prefixes are empty |
| Rules.CandidatesAre | pkg/validator/validators.go:45-58 | which rules compete: those matching at or after the first strict match, in ascending order |
| Compare.Complement | pkg/compare/slices.go:3-20 | the two loops compute the missing required strings in order of first appearance |
| Compare.MissingMeans | pkg/compare/slices.go:3-20 | these are exactly the required strings not present, each once; none if and only if all are present |
| Compare.MissingInOrder | pkg/compare/slices.go:3-20 | they come in the order of their first appearance |
| Compare.IsSubSet | pkg/validator/validators/validators.go:95-106 | true if and only if every element is in the superset |
| Validators.ValidationResults.AddResult | pkg/validator/validators/validators.go:70-81 | appends a finding on the whole configuration and leaves success alone |
| Validators.ValidationResults.AddBranchResult | pkg/validator/validators/validators.go:55-68 | appends a finding on a rule and clears success |
| Validators.ValidationResults.SuccessResult | pkg/validator/validators/validators.go:46-53 | success if and only if nothing was found |
| Validators.ContainsMeans | pkg/validator/validators/comments.go:47-47 | containing a text means having it at some position |
| Validators.ValidateComments | pkg/validator/validators/comments.go:30-63 | reports one finding per required comment that no comment matches, only the first in fail-fast mode, and stops only then |
| Validators.ValidateStatuses | pkg/validator/validators/requiredstatuses.go:29-55 | reports the missing finished names, only the first finding in fail-fast mode, and stops exactly when it finds anything; crashes when reading the statuses does |
| Validators.Validate | pkg/validator/validators/validators.go:88-93 | a disabled validation reports nothing; an enabled one its findings, or the crash of reading its statuses |
| Validators.FoundMeans | pkg/validator/validators/age.go:30-51 | each validation finds nothing if and only if its requirement is met: author listed, labels included, comments matched, names finished, old enough |
| Validators.AgeMeans | pkg/validator/validators/age.go:40-41 | a pull request that passes is older than the required age, and one older by a second passes |
| Validators.FoundSays | pkg/validator/validators/validators.go:55-81 | whatever a validation reports is about its own scope and reason, with the message that fits what is wrong: the missing names, an unknown age, a missing comment |
| Validators.UnavailableFirst | pkg/validator/validators/comments.go:31-42 | that comments or statuses could not be read is reported first |
| Validators.CommentFindingsCount | pkg/validator/validators/comments.go:44-62 | one finding for each required comment of which no comment begins with the title and contains the body |
| Gates.RunValidations | pkg/validator/validators.go:96-102 | a list of validations reports all findings, or only the first in fail-fast mode, stops exactly then, and crashes when a validation it comes to does |
| Gates.RunRule | pkg/validator/validators.go:110-138 | a rule passes if and only if its validations find nothing, and crashes with them |
| Gates.JudgedByEnd | pkg/validator/validators.go:108-145 | how the loop over the rules ends settles the report: a passing rule discards the others' findings, else all are appended, a nil rule or one that crashes ends it with a crash |
| Gates.ValidateConditions | pkg/validator/validators.go:162-231 | the gate on author, labels and age reports exactly the specified results and success |
| Gates.ValidateCommentsAndChecks | pkg/validator/validators.go:79-146 | the gate on comments and statuses reports exactly the specified results and success, or crashes as specified |
| GateLaws.ConditionsSpec | pkg/validator/validators.go:162-231 | succeeds if and only if author and labels suit the whole configuration and some selected rule is met on author, labels and age; crashes exactly on a nil rule it reaches |
| GateLaws.ChecksSpec | pkg/validator/validators.go:79-146 | succeeds if and only if the comments suit the whole configuration and no rule is selected, or some selected rule is met on comments and statuses with no crash before it; crashes if and only if it comes to a nil rule, or to a rule that needs statuses which cannot be read (in fail-fast mode only past suiting comments) |
| GateLaws.OldEnough | pkg/validator/validators.go:162-231 | a passing conditions gate means that some selected rule is met and the pull request is older than that rule asks |
| GateLaws.ConditionsReported | pkg/validator/validators.go:162-231 | whatever the gate reports is wrong with the whole configuration, or that no rule is selected, or, when no rule is met, wrong with a selected rule and reported under its key and prefix |
| GateLaws.ChecksReported | pkg/validator/validators.go:79-146 | the same for comments and statuses, where nothing is reported when no rule is selected |
| GateLaws.AllReported | pkg/validator/validators.go:162-231 | in full mode everything found of the whole configuration is reported |
| GateLaws.AllReportedOf | pkg/validator/validators.go:162-231 | and everything found of a selected rule, unless some rule is met |
| GateLaws.WholeInOrder | pkg/validator/validators.go:173-184 | of the whole configuration the author is reported before the labels, in fail-fast mode alone |
| GateLaws.RuleInOrder | pkg/validator/validators.go:202-214 | of a rule the author, then the labels, then the age; in fail-fast mode only the first |
| GateLaws.ChecksInOrder | pkg/validator/validators.go:117-128 | of a rule the comments, then the statuses; in fail-fast mode only the first finding |
| GateLaws.RulesInOrder | pkg/validator/validators.go:132-145 | when no rule passes, the findings of the rules follow those of the whole configuration, rule by rule in the order of selection |
| GateLaws.ModesAgree | pkg/validator/validators.go:79-231 | unless the full mode crashes, both modes agree on success, and the fail-fast results are the head of the full ones if the whole configuration fails, else the heads of each failing rule's results, always a subsequence; a success of the full mode is one of the other, and a crash of the fail-fast mode one of the full |
| GateLaws.ModesCanDiffer | pkg/validator/validators.go:105-131 | two rules and answers for which the full mode crashes while the fail-fast mode passes |
| GateLaws.FailFastAgrees | pkg/validator/validators.go:79-231 | this agreement for both gates on the same answers; on success of the conditions gate without exception |
| GateLaws.CrashesIff | pkg/validator/validators.go:29-63 | a selection holds a nil rule if and only if a strict rule matches and every candidate prefix is empty |
| GateLaws.SingleRulePassesBoth | pkg/validator/validators.go:29-63 | whenever a single rule is selected and the head ref is unchanged, both gates are passed by it |
| GateLaws.StrictGatesShareRule | pkg/validator/validators.go:29-63 | so with a matching strict rule, when the winner passes both |
| GateLaws.GatesCanDiffer | pkg/validator/validators.go:79-231 | two rules can pass the two gates though neither passes both |
| GateLaws.EvidenceMonotone | pkg/validator/validators.go:79-231 | more labels, comments or finished statuses, or a later time, never turn a passing verdict into a failing one, in both gates and modes; for fail-fast checks if the later statuses can all be read |
| Polling.InitialisedTwice | pkg/github/client.go:699-715 | initialising twice is the same as once if and only if no time was negative |
| Polling.AttemptsExact | pkg/github/client.go:685-697 | the bound on polls is tight: with time left, a wait that finds nothing times out exactly after its attempts |
| Polling.TimeExact | pkg/github/client.go:685-697 | the bound on sleeps is tight: at the pace of its pauses and with attempts left, a wait times out after exactly that many sleeps |
| Polling.Retry.Init | pkg/github/client.go:699-715 | the limits after init |
| Polling.Retry.Start | pkg/github/client.go:690-693 | only the start time changes |
| Polling.Retry.Increment | pkg/github/client.go:695-697 | only the attempts grow, by one |
| Polling.WaitMeans | pkg/github/client.go:189-233 | the first poll that neither goes on nor is under way decides a wait, and a timeout happens exactly at exceeded limits |
| Polling.PollsBounded | pkg/github/client.go:685-697 | a wait ends within the polls its attempts allow and one more for each round that skipped the limits, and does end once that many polls were answered |
| Polling.SleepsBounded | pkg/github/client.go:685-697 | under a clock that advances by the pause, every round after which a wait goes on either skips the limits or is among the first that whole pauses fit into the waiting time, and so are its sleeps counted |
| Polling.UnlimitedNeverEnds | pkg/github/client.go:659-663 | rounds that skip the limits never end a wait |
| Workflows.GetLatestWorkflowRuns | pkg/github/client.go:484-497 | the loop keeps the latest run of each name |
| Workflows.LatestMeans | pkg/github/client.go:490-496 | each name is mapped to its first run with the greatest number |
| Workflows.LatestIgnoresOrder | pkg/github/client.go:484-497 | the result does not depend on the order of the runs when numbers are distinct per name |
| Workflows.StatusesOf | pkg/github/client.go:536-542 | in whatever order the map is read, there is one status per run and their states are those of the runs |
| Workflows.ListUntilQueued | pkg/github/client.go:525-560 | the loop returns an error, or the states of the listing that ended it, as the specification of the wait says |
| Workflows.AllWorkflowsPassed | pkg/github/client.go:499-589 | both paths, with and without a last merged pull request |
| Workflows.LookOnce | pkg/github/client.go:562-588 | without a last merged pull request any failed or cancelled run is an error, and else the states are the conclusions |
| Statuses.ToString | pkg/github/client.go:383-393 | the loop collects the names of the finished statuses |
| Statuses.FinishedNamesMeans | pkg/github/client.go:383-393 | a name is collected if and only if some status of that name is finished |
| Statuses.GetStatuses | pkg/github/client.go:401-448 | all pages of both listings, in order, or a crash when a check run page failed |
| Statuses.AllListed | pkg/github/client.go:401-448 | the result holds every commit status and every check run of every page, and nothing else |
| Statuses.StatusListedAt | pkg/github/client.go:402-420 | the commit statuses come first, page by page |
| Statuses.RunListedAt | pkg/github/client.go:422-447 | then the check runs, page by page, each under its own name with a conclusion that is not success, neutral or skipped, and else its status |
| Statuses.ListedLength | pkg/github/client.go:401-448 | and nothing more |
| Statuses.FinishedIff | pkg/github/client.go:401-448 | all statuses could be read and are finished if and only if no check run page failed, every commit status of every page is finished, and every check run is finished with no conclusion but success, neutral or skipped, or concluded as completed |
| Waits.WaitForPRChecksToPass | pkg/github/client.go:189-233 | the loop and its nested wait return what the specification of the wait says |
| Waits.WaitForRebase | pkg/github/client.go:293-316 | the loop returns the old head and the last fetched pull request, with an error exactly at its limits |
| Waits.ScanStatuses | pkg/github/client.go:636-674 | the loop over the statuses, then the comparison with the required names, yield the specified verdict |
| Waits.TakeSnapshot | pkg/github/client.go:595-683 | one round for a number: fetch, protection of the fetched base branch, nested wait and all pages of the statuses of the fetched head, in this order with their errors and the crash on a failed page |
| Waits.WaitForStatusChecks | pkg/github/client.go:591-683 | the loop, asking in each round for the number of the given and possibly nil pull request, returns what the specification of the wait says |
| WaitLaws.PRChecksPass | pkg/github/client.go:189-233 | the wait passes if and only if some round reported only required states, or no run at all, and every round before reported some other state and had time left |
| WaitLaws.PRChecksFail | pkg/github/client.go:189-233 | with which error it fails: a listing that could not be read, a failed or cancelled run, or a reported state not allowed at the limits; each if and only if the rounds before went on |
| WaitLaws.NestedLimits | pkg/github/client.go:195-621 | the nested waits give up at the fifth and sixth attempt or after ten minutes, and pause for a minute and for twenty seconds |
| WaitLaws.ClearsMeans | pkg/github/client.go:211-222 | a round clears a branch if and only if, in the reported listing, the latest run of every workflow has a required conclusion, or status without one; without a last merged pull request, if every listed run has a required conclusion |
| WaitLaws.ReportsIff | pkg/github/client.go:499-589 | which runs are reported: of the first listing that shows enough workflows or at which the limits are exceeded, the latest of each workflow; without a last merged pull request, all of the only listing |
| WaitLaws.PRChecksDecided | pkg/github/client.go:189-233 | it never returns false without an error |
| WaitLaws.OrderIrrelevant | pkg/github/client.go:484-560 | reordering the runs of the listings changes nothing on the path with a last merged pull request |
| WaitLaws.ListedBounded | pkg/github/client.go:515-560 | the nested wait lists the runs of the last merged pull request and then polls at most as often as its attempts allow |
| WaitLaws.PRChecksBounded | pkg/github/client.go:189-233 | rounds and sleeps are bounded by the limits, each round asks for at most seven listings, and the wait does end once that many rounds were answered |
| WaitLaws.RebaseMeans | pkg/github/client.go:293-316 | the wait ends with the first fetch whose head differs, failed fetches counting as an empty head, and at its limits with its last fetch and an error |
| WaitLaws.ReportedRebase | pkg/github/client.go:299-307 | a reported update is a new head if the pull request could be fetched, and otherwise the old head was not empty |
| WaitLaws.FailedFetchCountsAsRebase | pkg/github/client.go:299-307 | a failed first fetch is reported as an update if and only if the old head is not empty |
| WaitLaws.RebaseBounded | pkg/github/client.go:293-316 | fetches and sleeps are bounded by the limits |
| WaitLaws.AllFinishedDecides | pkg/github/client.go:665-674 | with all statuses finished a round passes if and only if every required name occurs |
| WaitLaws.StatusChecksPass | pkg/github/client.go:591-683 | the wait returns true if and only if some snapshot of the number was ready: fetched, protection known, workflows found, every status finished and every required context among the names; and in every earlier one a status was under way, or a required one was missing with time left |
| WaitLaws.StatusChecksFail | pkg/github/client.go:591-683 | with which error it fails: pull request or protection not fetched, a failing workflow, a status neither finished nor under way, or a required name missing at the limits; each if and only if the snapshots before went on |
| WaitLaws.StatusChecksDecided | pkg/github/client.go:591-683 | it never returns false without an error |
| WaitLaws.NilStatusChecks | pkg/github/client.go:596-600 | the wait for a nil pull request fails at its first round |
| WaitLaws.ReadyPages | pkg/github/client.go:401-674 | a snapshot that could be read is ready if and only if no check run page failed, every commit status and every check run of every page is good, and every context that the protection of the fetched base branch requires is the name of one of them |
| WaitLaws.PassedPages | pkg/github/client.go:591-683 | a wait that passes has seen such pages |
| WaitLaws.StatusChecksCrash | pkg/github/client.go:591-683 | the wait crashes if and only if a check run page failed in some snapshot that was otherwise read, and after every earlier one the wait went on |
| WaitLaws.StatusChecksBounded | pkg/github/client.go:591-683 | rounds with a status under way come on top of those that attempts and waiting time allow; every other round after which it sleeps is among the first that whole pauses fit into the waiting time; it does end once enough rounds were answered |
| WaitLaws.SnapshotListings | pkg/github/client.go:621-625 | each round asks for at most eight listings of workflow runs |
| WaitLaws.InProgressNeverEnds | pkg/github/client.go:659-663 | statuses that stay in progress keep the wait going beyond any limit |
| ConfigTree.PathLaw | pkg/config/merge.go:40-68 | what a merge holds at every path: a non-map of the later document wins, maps are merged, and where it has nothing the earlier value stays unless a non-map stands above |
| ConfigTree.BlockedMeans | pkg/config/merge.go:60-67 | a path is cut off if and only if some strict prefix leads to a non-map |
| ConfigTree.MergeIdempotent | pkg/config/merge.go:40-68 | merging a document with itself changes nothing |
| ConfigTree.MergeAgain | pkg/config/merge.go:40-68 | merging a document again, from either side, changes nothing |
| ConfigTree.CoversMeans | pkg/config/merge.go:40-68 | a document absorbs an earlier one if and only if it has its keys wherever both carry maps |
| ConfigTree.AssociativeIff | pkg/config/merge.go:40-68 | grouping does not matter if and only if every map replaced by a non-map and then by a map again is covered by the last one |
| ConfigTree.AssociativityFails | pkg/config/merge.go:60-67 | three documents for which grouping matters |
| ConfigTree.EffectiveIs | pkg/config/repoconfig.go:154-183 | the organisation's document is used in original mode, the merge of both in merge mode, and else the repository's own |
| ConfigTree.EffectiveMerge | pkg/config/repoconfig.go:154-183 | in merge mode the repository's settings win at every path and the organisation's stay wherever the repository says nothing |
| ConfigHeap.MergeDeep | pkg/config/merge.go:40-68 | the recursive in-place merge of two disjoint heap trees yields a tree that means the merge of what they meant, for every order of the source keys |
| ConfigHeap.MergeMaps | pkg/config/merge.go:45-59 | the loop over the source map, although it shares the source's nodes into the destination, leaves a tree that means the merge |
| ConfigHeap.Merge | pkg/config/merge.go:9-29 | over freshly read, pairwise disjoint documents the accumulated value means the left fold of the merge, or the first decoding error is returned |
| Durations.GreedyIsOnly | pkg/config/duration.go:17-17 | every way to match the pattern at a position has the digits and the unit of the greedy scan, so backtracking cannot change the result |
| Durations.GreedyMatches | pkg/config/duration.go:17-17 | what the greedy scan finds is a match of the pattern |
| Durations.InUnits | pkg/config/duration.go:33-50 | the factors of each unit, wrapped after every multiplication, are the wrapped product |
| Durations.WrapMeans | pkg/config/duration.go:33-53 | what is read differs from the exact sum by a multiple of 2^64 and is a signed 64-bit number |
| Durations.UnitRead | pkg/config/duration.go:17-50 | n seconds, minutes, hours, days, weeks or months, in the singular or plural and with any white space between, are read as that many nanoseconds |
| Durations.CaseIrrelevant | pkg/config/duration.go:17-32 | the case of the letters does not matter |
| Durations.ParseDuration | pkg/config/duration.go:19-56 | the loop with its wrapped additions returns the wrapped sum, or the error of the input |
| Durations.Duration.UnmarshalYAML | pkg/config/duration.go:58-77 | a null leaves the value, an error leaves it and is returned, else it becomes the parsed duration |
| Durations.RejectedIff | pkg/config/duration.go:19-31 | an input is rejected if and only if the pattern occurs nowhere in it or the number of some hit does not fit into 64 bits |
| Durations.RoundTrip | pkg/config/duration.go:19-56 | terms written with any digits, spaces, case and plural, and any text without digits around them, are read as their sum modulo 2^64, unless a number does not fit |
| Durations.RoundTripExact | pkg/config/duration.go:19-56 | a sum that fits into 64 bits is read exactly |
| Durations.DecimalValue | pkg/config/duration.go:28-31 | the decimal digits of a number are read as that number |

## Left out

- HTTP handlers, login, sessions, dashboard and setup pages, commands, self-update, version and logging: no decision about a pull request.
- OAuth, JWT, gRPC and the creation of clients: their success or failure is a parameter of a review.
- The calls of go-github and the YAML codec: their answers are parameters; pages form finite chains, comment bodies and rules are not nil, and decoded documents are trees.
- `cmd/dispatch` and `pkg/backoff`: paging and a counter, easier than the listings and limits modelled here.
- Message texts, templates and Markdown escaping: messages are constructors; reason, key and prefix are kept, the remaining time in the age message is not. The text of a comment is no part of its effect.
- `LoadConfig`: which documents exist and are fetched is left out; what their mode makes of them is `ConfigTree.Effective`.
- Panics that end the process, a second GraceFullShutdown, direct calls of ReceiveEvent and changes through the map of `Entries` are assumed absent from the queue.
- The temporal and the direct reviewer, which run the same review without the queue.
- EventQueue.Serialised: a handler is the finite list of effects it will perform, carried by its event; handlers that never return are not part of a run.
- Waits.WaitForStatusChecks: a wait runs over the answers seen so far and is under way when they are used up; the same holds for the other waits.
- Statuses.GetStatuses: a call that fails without any HTTP response crashes the original also for commit statuses; only the failed check run page is modelled as a crash.
- ReviewGaps.ApprovedAfterUpdateIff: who moved a head is not part of GitHub's answers, so the time at which the update lands is a parameter; without the hypothesis that nothing else moves the head, `ReviewGaps.NewHeadIff` is what holds.
- ReviewGaps.MergedHeadCheckedIff: supposes that the head does not come back to an earlier commit, as a forced push could make it; without that only `ReviewGaps.MergedHeadChecked` and `ReviewGaps.JudgedCommitIff` hold.
- GitHub.Fetched: a fetch of pull request number 0 always fails, as GitHub counts from 1.
- Durations.GreedyIsOnly: ASCII text only; the two non-ASCII letters that fold to k and s are not modelled.
- Rules.MatchedBranchConfig: strings are sequences of bytes; `maps.Keys` yields the keys in any order.
- Labels, comments and workflow runs are lists of their names, bodies and fields that the code reads; other fields are absent.
