/**
 Reviews behind the event queue (pkg/review/queue.go): the producer and the handler
 of events, and what the log of all repositories says about reviews.
 */
module ReviewQueue {
  import opened Results
  import opened Effects
  import opened EventQueue
  import opened Review
  import opened ReviewLaws

  // ---------- the two ends of the queue ----------

  /** QueueReviewer.PullRequestReview. */
  method Enqueue(queue: RepositoryQueue, owner: string, name: string, e: Event)
    modifies queue
    ensures queue.Model() == Apply(old(queue.Model()), Add(GetPrefix(owner, name), e))
  {
    queue.AddEvent(GetPrefix(owner, name), e);
  }

  /** HandleEvent: whether it returns an error, unless it crashes or still waits. */
  method HandleEvent(isPullRequest: bool, cfg: AppConfig, o: Oracle, trace: Trace) returns (failed: Option<bool>)
    requires WellFormed(cfg)
    modifies trace, RuleObjects(cfg), if cfg.merge.Some? then {cfg.merge.value} else {}
    ensures !isPullRequest ==> failed == Some(true) && trace.effects == old(trace.effects)
    ensures isPullRequest ==>
              && trace.effects == old(trace.effects) + Reviewed(old(SetupOf(cfg)), o).effects
              && var run := Reviewed(old(SetupOf(cfg)), o);
                 failed == match run
                           case Stop(_, Returned(None)) => Some(false)
                           case Stop(_, Returned(Some(_))) => Some(true)
                           case _ => None
  {
    if !isPullRequest {
      return Some(true);
    }
    ghost var s := SetupOf(cfg);
    var end := PullRequestReview(cfg, o, trace);
    RunMeans(s, o);
    match end {
      case Some(Returned(error)) => return Some(error.Some?);
      case _ => return None;
    }
  }

  /** The configuration and the answers that each event of each repository meets, by its
      position among the events of the repository. */
  type Reviews = (Key, nat) -> (Setup, Oracle)

  /** The handler of the event performs this review, which returns. */
  ghost predicate Handles(e: Event, review: (Setup, Oracle)) {
    var run := Reviewed(review.0, review.1);
    run.Stop? && run.outcome.Returned? && e.script == run.effects
  }

  /** Every event ever added is handled by the review it meets. */
  ghost predicate AllHandled(s: State, reviews: Reviews) {
    forall k, t: nat | t < |At(s.added, k)| :: Handles(At(s.added, k)[t], reviews(k, t))
  }

  // ---------- the log of one repository ----------

  /** The entry at `i` is effect `p` of the event with ticket `t`, and the effects
      before it in its script come right before it, all by the worker that took it. */
  ghost predicate IsEffect(log: seq<Entry>, k: Key, events: seq<Event>, takers: seq<nat>, i: nat, t: nat, p: nat) {
    && i < |log| && p <= i && t < |events| && t < |takers| && p < |events[t].script|
    && forall q | 0 <= q <= p :: log[i - p + q] == Entry(k, t, takers[t], events[t].script[q])
  }

  lemma {:induction false} SequentialAt(k: Key, events: seq<Event>, takers: seq<nat>, i: nat) returns (t: nat, p: nat)
    requires |events| <= |takers| && i < |Sequential(k, events, takers)|
    ensures IsEffect(Sequential(k, events, takers), k, events, takers, i, t, p)
  {
    var n := |events| - 1;
    var before, all := Sequential(k, events[..n], takers), Sequential(k, events, takers);
    if i < |before| {
      t, p := SequentialAt(k, events[..n], takers, i);
      forall q | 0 <= q <= p ensures all[i - p + q] == Entry(k, t, takers[t], events[t].script[q]) {
        assert before[i - p + q] == all[i - p + q];
      }
    } else {
      t, p := n, i - |before|;
    }
  }

  /** This review was due to request this merge. */
  ghost predicate DueTo(review: (Setup, Oracle), merge: Effect) {
    var (s, o) := review;
    && ApprovalDue(s, o) && o.approved && MergeDue(s, o)
    && merge == Merge(MethodUsed(s, o), MergedHead(o), o.merged)
  }

  /** All that a merge in the log of a repository stands for: it was due to the review
      that its event met, and right before it the same worker was granted an approval
      for the same event. */
  ghost predicate MergeWasDue(log: seq<Entry>, k: Key, reviews: Reviews, i: nat) {
    && 0 < i < |log|
    && log[i - 1] == Entry(k, log[i].ticket, log[i].worker, Approve(true))
    && DueTo(reviews(k, log[i].ticket), log[i].effect)
  }

  lemma ReviewMerge(script: seq<Effect>, s: Setup, o: Oracle, p: nat)
    requires p < |script| && script == Reviewed(s, o).effects && script[p].Merge?
    ensures p > 0 && script[p - 1] == Approve(true) && DueTo((s, o), script[p])
  {
    EveryRunIsGrammatical(s, o);
    MergesIff(s, o);
    MergeAt(script, Updates(o), MergeEffects(MethodUsed(s, o), o), p);
  }

  lemma RanksDiffer(t: seq<Effect>)
    requires Grammar(t)
    ensures forall i, j | 0 <= i < |t| && 0 <= j < |t| && Rank(t[i]) == Rank(t[j]) :: i == j
  {
    assert forall i, j | 0 <= i < j < |t| :: Rank(t[i]) < Rank(t[j]);
  }

  lemma MergeAt(script: seq<Effect>, updates: seq<Effect>, merge: seq<Effect>, p: nat)
    requires p < |script| && script == updates + [Approve(true)] + merge && script[p].Merge? && Grammar(script)
    requires merge != [] && merge[0].Merge?
    ensures script[p] == merge[0]
  {
    RanksDiffer(script);
    assert script[|updates| + 1] == merge[0];
    assert p == |updates| + 1;
  }

  /** However the goroutines of all repositories interleave: every merge in the log was
      due to the review that its event met, under the configuration and the answers of
      that review. */
  lemma EveryMergeWasDue(s: State, reviews: Reviews, k: Key, i: nat)
    requires Reachable(s) && AllHandled(s, reviews)
    requires i < |Restrict(s.log, k)| && Restrict(s.log, k)[i].effect.Merge?
    ensures MergeWasDue(Restrict(s.log, k), k, reviews, i)
  {
    LogIsPrefix(s, k);
    var log, events, takers := Restrict(s.log, k), At(s.started, k), At(s.takers, k);
    var all := Sequential(k, events, takers);
    var t, p := SequentialAt(k, events, takers, i);
    assert all[i] == log[i] == Entry(k, t, takers[t], events[t].script[p]);
    assert events[t] == At(s.added, k)[t];
    ReviewMerge(events[t].script, reviews(k, t).0, reviews(k, t).1, p);
    assert all[i - p + (p - 1)] == Entry(k, t, takers[t], Approve(true));
    assert log[i - 1] == all[i - 1];
  }
}
