/** Commit statuses and check runs of a pull request (pkg/github/client.go). */
module Statuses {
  import opened Results

  /** A status, state or conclusion text: the empty one, those the code names, and
      all others. */
  datatype State =
    | NoState
    | Success
    | Neutral
    | Skipped
    | Completed
    | InProgress
    | Queued
    | Failure
    | Cancelled
    | Other(text: string)

  datatype Status = Status(name: string, state: State)

  datatype CheckRun = CheckRun(name: string, status: State, conclusion: State)

  predicate Finished(state: State) {
    state.Success? || state.Neutral? || state.Skipped? || state.Completed?
  }

  predicate Running(state: State) {
    state.InProgress? || state.Queued?
  }

  /** The names of the finished statuses, in order. */
  function FinishedNames(stats: seq<Status>): seq<string> {
    if stats == [] then []
    else
      var rest, s := FinishedNames(stats[..|stats| - 1]), stats[|stats| - 1];
      if Finished(s.state) then rest + [s.name] else rest
  }

  method ToString(stats: seq<Status>) returns (names: seq<string>)
    ensures names == FinishedNames(stats)
  {
    names := [];
    for i := 0 to |stats|
      invariant names == FinishedNames(stats[..i])
    {
      assert stats[..i + 1][..i] == stats[..i];
      if Finished(stats[i].state) {
        names := names + [stats[i].name];
      }
    }
    assert stats[..|stats|] == stats;
  }

  lemma {:induction false} FinishedNamesMeans(stats: seq<Status>)
    ensures forall n :: n in FinishedNames(stats) <==> exists s | s in stats :: s.name == n && Finished(s.state)
  {
    if stats != [] {
      var before, last := stats[..|stats| - 1], stats[|stats| - 1];
      FinishedNamesMeans(before);
      assert forall s :: s in stats <==> s in before || s == last;
    }
  }

  // ---------- pagination ----------

  /** An answer of a paged listing; `None` when the call failed. Page 0 stands for
      the first request, and a next page of 0 for the last answer. */
  datatype Page<+T> = Page(items: Option<seq<T>>, next: nat)

  /** Following the listing from its first page visits exactly these pages. */
  predicate Chain<T>(pages: nat -> Page<T>, numbers: seq<nat>) {
    && numbers != [] && numbers[0] == 0
    && (forall i | 0 < i < |numbers| :: numbers[i] != 0)
    && (forall i | 0 <= i < |numbers| :: pages(numbers[i]).next == if i + 1 < |numbers| then numbers[i + 1] else 0)
  }

  /** A commit status keeps its state; a check run shows its conclusion when that
      is a bad one, and its status otherwise. */
  function OfCheckRun(run: CheckRun): Status {
    if !run.conclusion.NoState? && !run.conclusion.Success? && !run.conclusion.Neutral? && !run.conclusion.Skipped?
    then Status(run.name, run.conclusion)
    else Status(run.name, run.status)
  }

  function OfCheckRuns(runs: seq<CheckRun>): seq<Status> {
    seq(|runs|, i requires 0 <= i < |runs| => OfCheckRun(runs[i]))
  }

  function Items<T>(page: Page<T>): seq<T> {
    match page.items
    case Some(items) => items
    case None => []
  }

  function CombinedItems(pages: nat -> Page<Status>, numbers: seq<nat>): seq<Status> {
    if numbers == [] then []
    else CombinedItems(pages, numbers[..|numbers| - 1]) + Items(pages(numbers[|numbers| - 1]))
  }

  function CheckRunItems(pages: nat -> Page<CheckRun>, numbers: seq<nat>): seq<Status> {
    if numbers == [] then []
    else CheckRunItems(pages, numbers[..|numbers| - 1]) + OfCheckRuns(Items(pages(numbers[|numbers| - 1])))
  }

  /** What GitHub answers to both listings for a commit, with the pages of each. */
  datatype Listings = Listings(
    combined: nat -> Page<Status>,
    combinedPages: seq<nat>,
    runs: nat -> Page<CheckRun>,
    runPages: seq<nat>)

  const NOTHING_LISTED := Listings((n: nat) => Page(Some([]), 0), [0], (n: nat) => Page(Some([]), 0), [0])

  type StatusPages = l: Listings | Chain(l.combined, l.combinedPages) && Chain(l.runs, l.runPages)
    witness NOTHING_LISTED

  /** All pages of both listings, in order. A failed commit status page counts as
      empty; a failed check run page makes the source crash, here `None`. */
  function Collected(l: StatusPages): Option<seq<Status>> {
    if exists p | p in l.runPages :: l.runs(p).items.None? then None
    else Some(CombinedItems(l.combined, l.combinedPages) + CheckRunItems(l.runs, l.runPages))
  }

  method GetCombined(pages: nat -> Page<Status>, ghost numbers: seq<nat>) returns (statuses: seq<Status>)
    requires Chain(pages, numbers)
    ensures statuses == CombinedItems(pages, numbers)
  {
    statuses := [];
    var page := 0;
    ghost var i := 0;
    while true
      invariant i < |numbers| && page == numbers[i]
      invariant statuses == CombinedItems(pages, numbers[..i])
      decreases |numbers| - i
    {
      var res := pages(page);
      assert pages(numbers[i]).next == if i + 1 < |numbers| then numbers[i + 1] else 0;
      assert numbers[..i + 1][..i] == numbers[..i];
      match res.items {
        case Some(items) => statuses := statuses + items;
        case None =>
      }
      if res.next == 0 {
        assert numbers[..i + 1] == numbers;
        return;
      }
      page := res.next;
      i := i + 1;
    }
  }

  method GetCheckRuns(pages: nat -> Page<CheckRun>, ghost numbers: seq<nat>) returns (r: Option<seq<Status>>)
    requires Chain(pages, numbers)
    ensures r == if exists p | p in numbers :: pages(p).items.None? then None else Some(CheckRunItems(pages, numbers))
  {
    var statuses: seq<Status> := [];
    var page := 0;
    ghost var i := 0;
    while true
      invariant i < |numbers| && page == numbers[i]
      invariant statuses == CheckRunItems(pages, numbers[..i])
      invariant forall j | 0 <= j < i :: pages(numbers[j]).items.Some?
      decreases |numbers| - i
    {
      var res := pages(page);
      assert pages(numbers[i]).next == if i + 1 < |numbers| then numbers[i + 1] else 0;
      assert numbers[..i + 1][..i] == numbers[..i];
      match res.items {
        case Some(items) => statuses := statuses + OfCheckRuns(items);
        case None => return None;
      }
      if res.next == 0 {
        assert numbers[..i + 1] == numbers;
        return Some(statuses);
      }
      page := res.next;
      i := i + 1;
    }
  }

  method GetStatuses(l: StatusPages) returns (r: Option<seq<Status>>)
    ensures r == Collected(l)
  {
    var statuses := GetCombined(l.combined, l.combinedPages);
    var checks := GetCheckRuns(l.runs, l.runPages);
    match checks {
      case Some(more) => r := Some(statuses + more);
      case None => r := None;
    }
  }

  // ---------- what the pages say ----------

  lemma {:induction false} CombinedMean(pages: nat -> Page<Status>, numbers: seq<nat>, s: Status)
    ensures s in CombinedItems(pages, numbers) <==> exists p | p in numbers :: s in Items(pages(p))
  {
    if numbers != [] {
      var before, last := numbers[..|numbers| - 1], numbers[|numbers| - 1];
      CombinedMean(pages, before, s);
      assert forall p :: p in numbers <==> p in before || p == last;
    }
  }

  ghost predicate RunShows(pages: nat -> Page<CheckRun>, numbers: seq<nat>, s: Status) {
    exists p, r | p in numbers && r in Items(pages(p)) :: OfCheckRun(r) == s
  }

  lemma OfCheckRunsMean(runs: seq<CheckRun>, s: Status)
    ensures s in OfCheckRuns(runs) <==> exists r | r in runs :: OfCheckRun(r) == s
  {
    if r :| r in runs && OfCheckRun(r) == s {
      var i :| 0 <= i < |runs| && runs[i] == r;
      assert OfCheckRuns(runs)[i] == s;
    }
  }

  lemma {:induction false} CheckRunsMean(pages: nat -> Page<CheckRun>, numbers: seq<nat>, s: Status)
    ensures s in CheckRunItems(pages, numbers) <==> RunShows(pages, numbers, s)
  {
    if numbers != [] {
      var before, last := numbers[..|numbers| - 1], numbers[|numbers| - 1];
      CheckRunsMean(pages, before, s);
      OfCheckRunsMean(Items(pages(last)), s);
      assert forall p :: p in numbers <==> p in before || p == last;
    }
  }

  /** The statuses are those of every page of both listings, and no others. */
  lemma AllListed(l: StatusPages, s: Status)
    requires Collected(l).Some?
    ensures s in Collected(l).value <==>
            (exists p | p in l.combinedPages :: s in Items(l.combined(p))) || RunShows(l.runs, l.runPages, s)
  {
    CombinedMean(l.combined, l.combinedPages, s);
    CheckRunsMean(l.runs, l.runPages, s);
  }

  // The place of each item in the list of all.

  /** How many items come before page `i`. */
  function Before<T>(pages: nat -> Page<T>, numbers: seq<nat>, i: nat): nat
    requires i <= |numbers|
  {
    if i == 0 then 0 else Before(pages, numbers, i - 1) + |Items(pages(numbers[i - 1]))|
  }

  lemma {:induction false} BeforeCut<T>(pages: nat -> Page<T>, numbers: seq<nat>, n: nat, i: nat)
    requires i <= n <= |numbers|
    ensures Before(pages, numbers[..n], i) == Before(pages, numbers, i)
  {
    if i > 0 {
      BeforeCut(pages, numbers, n, i - 1);
    }
  }

  lemma {:induction false} CombinedLength(pages: nat -> Page<Status>, numbers: seq<nat>)
    ensures |CombinedItems(pages, numbers)| == Before(pages, numbers, |numbers|)
  {
    if numbers != [] {
      var n := |numbers| - 1;
      CombinedLength(pages, numbers[..n]);
      BeforeCut(pages, numbers, n, n);
    }
  }

  lemma {:induction false} CombinedAt(pages: nat -> Page<Status>, numbers: seq<nat>, i: nat, j: nat)
    requires i < |numbers| && j < |Items(pages(numbers[i]))|
    ensures Before(pages, numbers, i) + j < |CombinedItems(pages, numbers)|
    ensures CombinedItems(pages, numbers)[Before(pages, numbers, i) + j] == Items(pages(numbers[i]))[j]
  {
    var n := |numbers| - 1;
    BeforeCut(pages, numbers, n, i);
    if i < n {
      CombinedAt(pages, numbers[..n], i, j);
    } else {
      CombinedLength(pages, numbers[..n]);
      BeforeCut(pages, numbers, n, n);
    }
  }

  lemma {:induction false} CheckRunsLength(pages: nat -> Page<CheckRun>, numbers: seq<nat>)
    ensures |CheckRunItems(pages, numbers)| == Before(pages, numbers, |numbers|)
  {
    if numbers != [] {
      var n := |numbers| - 1;
      CheckRunsLength(pages, numbers[..n]);
      BeforeCut(pages, numbers, n, n);
    }
  }

  lemma {:induction false} CheckRunsAt(pages: nat -> Page<CheckRun>, numbers: seq<nat>, i: nat, j: nat)
    requires i < |numbers| && j < |Items(pages(numbers[i]))|
    ensures Before(pages, numbers, i) + j < |CheckRunItems(pages, numbers)|
    ensures CheckRunItems(pages, numbers)[Before(pages, numbers, i) + j] == OfCheckRun(Items(pages(numbers[i]))[j])
  {
    var n := |numbers| - 1;
    BeforeCut(pages, numbers, n, i);
    if i < n {
      CheckRunsAt(pages, numbers[..n], i, j);
    } else {
      CheckRunsLength(pages, numbers[..n]);
      BeforeCut(pages, numbers, n, n);
    }
  }

  /** The status bears the name of the run, and its conclusion if that is not good, else
      its status. */
  predicate ShowsRun(x: Status, run: CheckRun) {
    && x.name == run.name
    && x.state == if run.conclusion in {NoState, Success, Neutral, Skipped} then run.status else run.conclusion
  }

  lemma RunShown(run: CheckRun)
    ensures ShowsRun(OfCheckRun(run), run)
  {
  }

  lemma JoinedAt<T>(a: seq<T>, b: seq<T>, i: nat)
    ensures i < |a| ==> (a + b)[i] == a[i]
    ensures i < |b| ==> (a + b)[|a| + i] == b[i]
  {
  }

  lemma CollectedRunAt(l: StatusPages, at: nat)
    requires Collected(l).Some? && at < |CheckRunItems(l.runs, l.runPages)|
    ensures StatusCount(l) + at < |Collected(l).value|
    ensures Collected(l).value[StatusCount(l) + at] == CheckRunItems(l.runs, l.runPages)[at]
  {
    CombinedLength(l.combined, l.combinedPages);
    JoinedAt(CombinedItems(l.combined, l.combinedPages), CheckRunItems(l.runs, l.runPages), at);
  }

  /** The commit statuses come first, page by page. */
  lemma StatusListedAt(l: StatusPages, i: nat, j: nat)
    requires Collected(l).Some? && i < |l.combinedPages| && j < |Items(l.combined(l.combinedPages[i]))|
    ensures Before(l.combined, l.combinedPages, i) + j < |Collected(l).value|
    ensures Collected(l).value[Before(l.combined, l.combinedPages, i) + j] == Items(l.combined(l.combinedPages[i]))[j]
  {
    CombinedAt(l.combined, l.combinedPages, i, j);
    JoinedAt(CombinedItems(l.combined, l.combinedPages), CheckRunItems(l.runs, l.runPages),
             Before(l.combined, l.combinedPages, i) + j);
  }

  /** How many commit statuses there are. */
  function StatusCount(l: StatusPages): nat {
    Before(l.combined, l.combinedPages, |l.combinedPages|)
  }

  /** Then the check runs, page by page, each under its own name with a conclusion that is
      not good, and else its status. */
  lemma RunListedAt(l: StatusPages, i: nat, j: nat)
    requires Collected(l).Some? && i < |l.runPages| && j < |Items(l.runs(l.runPages[i]))|
    ensures StatusCount(l) + (Before(l.runs, l.runPages, i) + j) < |Collected(l).value|
    ensures var x := Collected(l).value[StatusCount(l) + (Before(l.runs, l.runPages, i) + j)];
            ShowsRun(x, Items(l.runs(l.runPages[i]))[j])
  {
    CheckRunsAt(l.runs, l.runPages, i, j);
    CollectedRunAt(l, Before(l.runs, l.runPages, i) + j);
    RunShown(Items(l.runs(l.runPages[i]))[j]);
  }

  /** And nothing more. */
  lemma ListedLength(l: StatusPages)
    requires Collected(l).Some?
    ensures |Collected(l).value| ==
            StatusCount(l) + Before(l.runs, l.runPages, |l.runPages|)
  {
    CombinedLength(l.combined, l.combinedPages);
    CheckRunsLength(l.runs, l.runPages);
  }

  ghost predicate AllFinished(stats: seq<Status>) {
    forall s | s in stats :: Finished(s.state)
  }

  /** A commit status that does not stand in the way. */
  predicate GoodStatus(s: Status) {
    s.state in {Success, Neutral, Skipped, Completed}
  }

  /** A check run that does not stand in the way: finished, with no conclusion but a good
      one. A conclusion "completed", which GitHub does not give, would do by itself. */
  predicate GoodRun(run: CheckRun) {
    run.conclusion == Completed ||
    (run.status in {Success, Neutral, Skipped, Completed} && run.conclusion in {NoState, Success, Neutral, Skipped})
  }

  /** Every commit status and every check run of every page is good, and no check run page failed. */
  ghost predicate AllGood(l: StatusPages) {
    && (forall p | p in l.runPages :: l.runs(p).items.Some?)
    && (forall p, s | p in l.combinedPages && s in Items(l.combined(p)) :: GoodStatus(s))
    && (forall p, r | p in l.runPages && r in Items(l.runs(p)) :: GoodRun(r))
  }

  lemma GoodRunMeans(run: CheckRun)
    ensures Finished(OfCheckRun(run).state) <==> GoodRun(run)
  {
  }

  /** The statuses could be read and are finished exactly when every page is good. */
  lemma FinishedIff(l: StatusPages)
    ensures Collected(l).Some? && AllFinished(Collected(l).value) <==> AllGood(l)
  {
    if Collected(l).Some? {
      var stats := Collected(l).value;
      forall s ensures s in stats <==>
        (exists p | p in l.combinedPages :: s in Items(l.combined(p))) || RunShows(l.runs, l.runPages, s)
      {
        AllListed(l, s);
      }
      if AllFinished(stats) {
        GoodIfFinished(l, stats);
      } else {
        var s :| s in stats && !Finished(s.state);
        assert !GoodStatus(s);
        if !exists p | p in l.combinedPages :: s in Items(l.combined(p)) {
          var p, r :| p in l.runPages && r in Items(l.runs(p)) && OfCheckRun(r) == s;
          GoodRunMeans(r);
        }
      }
    }
  }

  lemma GoodIfFinished(l: StatusPages, stats: seq<Status>)
    requires Collected(l) == Some(stats) && AllFinished(stats)
    ensures AllGood(l)
  {
    forall p, s | p in l.combinedPages && s in Items(l.combined(p)) ensures GoodStatus(s) {
      AllListed(l, s);
    }
    forall p, r | p in l.runPages && r in Items(l.runs(p)) ensures GoodRun(r) {
      AllListed(l, OfCheckRun(r));
      GoodRunMeans(r);
    }
  }
}
