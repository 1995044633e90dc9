/**
 What the validator's gates guarantee: a declarative meaning of passing, the
 agreement of the fail-fast and the full mode, and monotonicity in the evidence.
 */
module GateLaws {
  import opened Results
  import opened Rules
  import opened Statuses
  import opened Validators
  import opened GitHub
  import opened Gates

  // ---------- what passing means ----------

  /** What the conditions gate asks of one rule. */
  ghost predicate RuleConditions(rule: Rule, pr: PullRequest, now: int) {
    AuthorOk(rule.authors, pr.owner) && LabelsOk(rule.labels, pr.labels) && AgeOk(rule.age, pr.createdAt, now)
  }

  /** What the comments and checks gate asks of one rule. */
  ghost predicate RuleChecks(rule: Rule, comments: CommentsAnswer, checks: ChecksAnswer) {
    CommentsOk(rule.comments, comments) && StatusesOk(rule.requiredStatuses, checks)
  }

  /** The comments and checks gate crashes on a rule that needs statuses when reading
      them does; in fail-fast mode only if the comments suit, as it stops before. */
  ghost predicate RuleCrashes(failFast: bool, rule: Rule, comments: CommentsAnswer, checks: ChecksAnswer) {
    rule.requiredStatuses != [] && checks.None? && (failFast ==> CommentsOk(rule.comments, comments))
  }

  /** The selected rule `i`, if it is not nil. */
  ghost function RuleAt(policy: Policy, pr: PullRequest, i: nat): Option<Rule> {
    var selected := Selected(policy.rules, pr.headRef);
    if i < |selected| && selected[i].Some? && selected[i].value in policy.rules
    then Some(policy.rules[selected[i].value]) else None
  }

  /** Its key. */
  ghost function KeyAt(policy: Policy, pr: PullRequest, i: nat): string
    requires RuleAt(policy, pr, i).Some?
  {
    Selected(policy.rules, pr.headRef)[i].value
  }

  ghost predicate ConditionsMetAt(pr: PullRequest, policy: Policy, answers: Answers, i: nat) {
    var rule := RuleAt(policy, pr, i);
    rule.Some? && RuleConditions(rule.value, pr, answers.now(i + 1))
  }

  ghost predicate ChecksMetAt(pr: PullRequest, policy: Policy, answers: Answers, i: nat) {
    var rule := RuleAt(policy, pr, i);
    rule.Some? && RuleChecks(rule.value, answers.comments(i + 1), answers.checks(i + 1))
  }

  ghost predicate ChecksCrashAt(failFast: bool, pr: PullRequest, policy: Policy, answers: Answers, i: nat) {
    var rule := RuleAt(policy, pr, i);
    && i < |Selected(policy.rules, pr.headRef)|
    && (rule.Some? ==> RuleCrashes(failFast, rule.value, answers.comments(i + 1), answers.checks(i + 1)))
  }

  ghost predicate WholeOk(pr: PullRequest, policy: Policy) {
    AuthorOk(policy.authors, pr.owner) && LabelsOk(policy.labels, pr.labels)
  }

  ghost predicate ConditionsMet(pr: PullRequest, policy: Policy, answers: Answers) {
    WholeOk(pr, policy) && exists i: nat :: ConditionsMetAt(pr, policy, answers, i)
  }

  /** Some rule is met, and the gate does not crash on one before it. */
  ghost predicate ChecksMet(failFast: bool, pr: PullRequest, policy: Policy, answers: Answers) {
    && CommentsOk(policy.comments, answers.comments(0))
    && (Selected(policy.rules, pr.headRef) == [] || exists i: nat :: ChecksPassAt(failFast, pr, policy, answers, i))
  }

  ghost predicate ChecksPassAt(failFast: bool, pr: PullRequest, policy: Policy, answers: Answers, i: nat) {
    ChecksMetAt(pr, policy, answers, i) && forall j | 0 <= j < i :: !ChecksCrashAt(failFast, pr, policy, answers, j)
  }

  /** The gate comes to a rule it crashes on: no rule before it is met. */
  ghost predicate ChecksCrash(failFast: bool, pr: PullRequest, policy: Policy, answers: Answers) {
    && (failFast ==> CommentsOk(policy.comments, answers.comments(0)))
    && exists i: nat :: ChecksBreakAt(failFast, pr, policy, answers, i)
  }

  ghost predicate ChecksBreakAt(failFast: bool, pr: PullRequest, policy: Policy, answers: Answers, i: nat) {
    ChecksCrashAt(failFast, pr, policy, answers, i) && forall j | 0 <= j < i :: !ChecksMetAt(pr, policy, answers, j)
  }

  predicate Succeeds(report: Report) {
    report.Report? && report.success
  }

  // ---------- what lists of validations report ----------

  lemma GatherLast(failFast: bool, vals: seq<Validation>)
    requires vals != []
    ensures var before, last := Gather(failFast, vals[..|vals| - 1]), vals[|vals| - 1];
            Gather(failFast, vals) == Some([]) <==> before == Some([]) && !Breaks(last) && Found(last) == []
  {
    var before, cut := Gather(failFast, vals[..|vals| - 1]), Cut(failFast, Found(vals[|vals| - 1]));
    if before.Some? {
      assert |before.value + cut| == |before.value| + |cut|;
    }
  }

  lemma BreaksFails(v: Validation)
    requires Breaks(v)
    ensures !Passes(v)
  {
  }

  lemma HeadOfJoin<T>(a: seq<T>, b: seq<T>)
    ensures Head(a + b) == (if a == [] then Head(b) else Head(a)) && [] + Head(b) == Head(b)
  {
  }

  /** Nothing is reported exactly when all requirements are met. */
  lemma {:induction false} GatherPasses(failFast: bool, vals: seq<Validation>)
    ensures Gather(failFast, vals) == Some([]) <==> forall v | v in vals :: Passes(v)
  {
    if vals != [] {
      var before, last := vals[..|vals| - 1], vals[|vals| - 1];
      GatherPasses(failFast, before);
      GatherLast(failFast, vals);
      assert forall v :: v in vals <==> v in before || v == last;
      if Breaks(last) {
        BreaksFails(last);
      } else {
        FoundMeans(last);
      }
    }
  }

  lemma {:induction false} GatherNone(failFast: bool, vals: seq<Validation>)
    requires forall v | v in vals :: !Breaks(v)
    ensures Gather(failFast, vals).Some?
  {
    if vals != [] {
      GatherNone(failFast, vals[..|vals| - 1]);
    }
  }

  /** What the fail-fast mode reports is the head of what the full mode reports. */
  lemma {:induction false} GatherModes(vals: seq<Validation>)
    ensures Gather(false, vals).Some? ==> Gather(true, vals) == Some(Head(Gather(false, vals).value))
    ensures Gather(false, vals).None? ==> Gather(true, vals) != Some([])
  {
    if vals != [] {
      var before, last := vals[..|vals| - 1], vals[|vals| - 1];
      GatherModes(before);
      GatherLast(true, vals);
      if Gather(false, before).Some? {
        HeadOfJoin(Gather(false, before).value, Found(last));
      }
    }
  }

  lemma ConditionsWhole(failFast: bool, pr: PullRequest, policy: Policy, kind: Kind)
    ensures Gather(failFast, ConditionsOfAll(pr, policy, kind)).Some?
    ensures Gather(failFast, ConditionsOfAll(pr, policy, kind)) == Some([]) <==> WholeOk(pr, policy)
  {
    var vals := ConditionsOfAll(pr, policy, kind);
    GatherNone(failFast, vals);
    GatherPasses(failFast, vals);
    assert vals[0] in vals && vals[1] in vals;
  }

  lemma ChecksWhole(failFast: bool, policy: Policy, kind: Kind, comments: CommentsAnswer)
    ensures Gather(failFast, ChecksOfAll(policy.comments, kind, comments)).Some?
    ensures Gather(failFast, ChecksOfAll(policy.comments, kind, comments)) == Some([]) <==>
            CommentsOk(policy.comments, comments)
  {
    var vals := ChecksOfAll(policy.comments, kind, comments);
    GatherNone(failFast, vals);
    GatherPasses(failFast, vals);
    assert vals[0] in vals;
  }

  lemma ConditionsRule(failFast: bool, pr: PullRequest, k: string, rule: Rule, kind: Kind, now: int)
    ensures Gather(failFast, ConditionsOfRule(pr, k, rule, kind, now)).Some?
    ensures Gather(failFast, ConditionsOfRule(pr, k, rule, kind, now)) == Some([]) <==> RuleConditions(rule, pr, now)
  {
    var vals := ConditionsOfRule(pr, k, rule, kind, now);
    GatherNone(failFast, vals);
    GatherPasses(failFast, vals);
    assert vals[0] in vals && vals[1] in vals && vals[2] in vals;
  }

  lemma ChecksRule(failFast: bool, k: string, rule: Rule, kind: Kind, comments: CommentsAnswer, checks: ChecksAnswer)
    ensures Gather(failFast, ChecksOfRule(k, rule, kind, comments, checks)) == Some([]) <==>
            RuleChecks(rule, comments, checks)
    ensures Gather(failFast, ChecksOfRule(k, rule, kind, comments, checks)).None? <==>
            RuleCrashes(failFast, rule, comments, checks)
  {
    var vals := ChecksOfRule(k, rule, kind, comments, checks);
    GatherPasses(failFast, vals);
    assert vals[0] in vals && vals[1] in vals;
    assert vals[..1] == [vals[0]];
    GatherPasses(failFast, vals[..1]);
    GatherNone(failFast, vals[..1]);
  }

  // ---------- what each gate comes to ----------

  /** A list of rules settles on the first that passes or crashes. */
  lemma JudgedMeans(failFast: bool, w: seq<ValidationResult>, noRule: seq<ValidationResult>,
                    perRule: seq<Option<seq<ValidationResult>>>)
    ensures Succeeds(Judged(failFast, Some(w), noRule, perRule)) <==>
            w == [] && if perRule == [] then noRule == [] else SettlesOn(perRule, Some([]))
    ensures Judged(failFast, Some(w), noRule, perRule).Crash? <==> !(failFast && w != []) && SettlesOn(perRule, None)
  {
    if perRule != [] {
      var i := Settling(perRule, 0);
      assert i < |perRule| ==> Settles(perRule, perRule[i], i);
      if i == |perRule| {
        var found := Values(perRule);
        assert found[0] != [];
        FlatEmpty(found, 0);
      }
    }
  }

  ghost predicate Settles(perRule: seq<Option<seq<ValidationResult>>>, x: Option<seq<ValidationResult>>, i: nat) {
    && i < |perRule| && perRule[i] == x
    && forall j | 0 <= j < i :: perRule[j].Some? && perRule[j] != Some([])
  }

  ghost predicate SettlesOn(perRule: seq<Option<seq<ValidationResult>>>, x: Option<seq<ValidationResult>>) {
    exists i: nat :: Settles(perRule, x, i)
  }

  /** Lists that are not all empty do not join to an empty list. */
  lemma {:induction false} FlatEmpty(lists: seq<seq<ValidationResult>>, i: nat)
    requires i < |lists| && lists[i] != []
    ensures Flat(lists) != []
  {
    if i < |lists| - 1 {
      FlatEmpty(lists[..|lists| - 1], i);
    }
  }

  lemma ConditionsMetIs(failFast: bool, pr: PullRequest, policy: Policy, kind: Kind, answers: Answers, i: nat)
    ensures var perRule := ConditionsPerRule(failFast, pr, policy, kind, answers);
            && |perRule| == |Selected(policy.rules, pr.headRef)|
            && (i < |perRule| && perRule[i] == Some([]) <==> ConditionsMetAt(pr, policy, answers, i))
            && (i < |perRule| ==> (perRule[i].None? <==> RuleAt(policy, pr, i).None?))
  {
    var selected := Selected(policy.rules, pr.headRef);
    ConditionsLength(failFast, pr, policy, selected, kind, answers);
    if i < |selected| {
      ConditionsAt(failFast, pr, policy, selected, kind, answers, i);
      if RuleAt(policy, pr, i).Some? {
        ConditionsRule(failFast, pr, selected[i].value, policy.rules[selected[i].value], kind, answers.now(i + 1));
      }
    }
  }

  lemma ChecksMetIs(failFast: bool, pr: PullRequest, policy: Policy, kind: Kind, answers: Answers, i: nat)
    ensures var perRule := ChecksPerRule(failFast, pr, policy, kind, answers);
            && |perRule| == |Selected(policy.rules, pr.headRef)|
            && (i < |perRule| && perRule[i] == Some([]) <==> ChecksMetAt(pr, policy, answers, i))
            && (i < |perRule| && perRule[i].None? <==> ChecksCrashAt(failFast, pr, policy, answers, i))
  {
    var selected := Selected(policy.rules, pr.headRef);
    ChecksLength(failFast, policy, selected, kind, answers);
    if i < |selected| {
      ChecksAt(failFast, policy, selected, kind, answers, i);
      if RuleAt(policy, pr, i).Some? {
        ChecksRule(failFast, selected[i].value, policy.rules[selected[i].value], kind,
                   answers.comments(i + 1), answers.checks(i + 1));
      }
    }
  }

  /** Only a nil rule is no rule. */
  lemma RuleAtIs(policy: Policy, pr: PullRequest, i: nat)
    ensures i < |Selected(policy.rules, pr.headRef)| ==>
              (RuleAt(policy, pr, i).None? <==> Selected(policy.rules, pr.headRef)[i].None?)
    ensures None in Selected(policy.rules, pr.headRef) ==> |Selected(policy.rules, pr.headRef)| == 1
  {
    NilRuleAlone(policy.rules, pr.headRef);
  }

  /** The conditions gate passes exactly when author and labels suit the whole
      configuration and some selected rule is met on author, labels and age. It crashes
      exactly on a nil rule that it comes to. */
  lemma ConditionsSpec(failFast: bool, pr: PullRequest, policy: Policy, kind: Kind, answers: Answers)
    ensures Succeeds(ConditionsReport(failFast, Some(pr), policy, kind, answers)) <==>
            ConditionsMet(pr, policy, answers)
    ensures ConditionsReport(failFast, Some(pr), policy, kind, answers).Crash? <==>
            None in Selected(policy.rules, pr.headRef) && (failFast ==> WholeOk(pr, policy))
  {
    var perRule := ConditionsPerRule(failFast, pr, policy, kind, answers);
    ConditionsWhole(failFast, pr, policy, kind);
    JudgedMeans(failFast, Gather(failFast, ConditionsOfAll(pr, policy, kind)).value, NO_BRANCH, perRule);
    ConditionsSettle(failFast, pr, policy, kind, answers);
  }

  lemma ConditionsSettle(failFast: bool, pr: PullRequest, policy: Policy, kind: Kind, answers: Answers)
    ensures var perRule := ConditionsPerRule(failFast, pr, policy, kind, answers);
            && |perRule| == |Selected(policy.rules, pr.headRef)|
            && (SettlesOn(perRule, Some([])) <==> exists i: nat :: ConditionsMetAt(pr, policy, answers, i))
            && (SettlesOn(perRule, None) <==> None in Selected(policy.rules, pr.headRef))
  {
    var perRule, selected := ConditionsPerRule(failFast, pr, policy, kind, answers), Selected(policy.rules, pr.headRef);
    forall i: nat
      ensures |perRule| == |selected|
      ensures i < |perRule| && perRule[i] == Some([]) <==> ConditionsMetAt(pr, policy, answers, i)
      ensures i < |perRule| ==> (perRule[i].None? <==> selected[i].None?)
      ensures None in selected ==> |selected| == 1
    {
      ConditionsMetIs(failFast, pr, policy, kind, answers, i);
      RuleAtIs(policy, pr, i);
    }
    NilSettles(perRule, selected);
    if i: nat :| Settles(perRule, Some([]), i) {
      assert ConditionsMetAt(pr, policy, answers, i);
    }
  }

  /** When the rules that report nothing are the nil ones, and a nil rule is alone. */
  lemma NilSettles(perRule: seq<Option<seq<ValidationResult>>>, selected: seq<Option<string>>)
    requires |perRule| == |selected| && forall i | 0 <= i < |perRule| :: perRule[i].None? <==> selected[i].None?
    requires None in selected ==> |selected| == 1
    ensures SettlesOn(perRule, None) <==> None in selected
    ensures SettlesOn(perRule, Some([])) <==> exists i: nat :: i < |perRule| && perRule[i] == Some([])
  {
    if None in selected {
      assert Settles(perRule, None, 0);
    } else if i: nat :| i < |perRule| && perRule[i] == Some([]) {
      assert forall j | 0 <= j < |selected| :: selected[j] in selected;
      var m := SettlesFirst(perRule, i);
    }
  }

  /** The comments and checks gate passes exactly when the comments suit the whole
      configuration and no rule is selected, or some selected rule is met on comments and
      statuses and the gate does not crash on one before. It crashes exactly when it
      comes to a nil rule, or to one whose statuses it needs and fails to read. */
  lemma ChecksSpec(failFast: bool, pr: PullRequest, policy: Policy, kind: Kind, answers: Answers)
    ensures Succeeds(ChecksReport(failFast, Some(pr), policy, kind, answers)) <==>
            ChecksMet(failFast, pr, policy, answers)
    ensures ChecksReport(failFast, Some(pr), policy, kind, answers).Crash? <==>
            ChecksCrash(failFast, pr, policy, answers)
  {
    var perRule := ChecksPerRule(failFast, pr, policy, kind, answers);
    ChecksWhole(failFast, policy, kind, answers.comments(0));
    JudgedMeans(failFast, Gather(failFast, ChecksOfAll(policy.comments, kind, answers.comments(0))).value, [], perRule);
    ChecksSettle(failFast, pr, policy, kind, answers);
  }

  lemma ChecksSettle(failFast: bool, pr: PullRequest, policy: Policy, kind: Kind, answers: Answers)
    ensures var perRule := ChecksPerRule(failFast, pr, policy, kind, answers);
            && |perRule| == |Selected(policy.rules, pr.headRef)|
            && (SettlesOn(perRule, Some([])) <==> exists i: nat :: ChecksPassAt(failFast, pr, policy, answers, i))
            && (SettlesOn(perRule, None) <==> exists i: nat :: ChecksBreakAt(failFast, pr, policy, answers, i))
  {
    var perRule := ChecksPerRule(failFast, pr, policy, kind, answers);
    ChecksLength(failFast, policy, Selected(policy.rules, pr.headRef), kind, answers);
    if i: nat :| ChecksPassAt(failFast, pr, policy, answers, i) {
      PassSettles(failFast, pr, policy, kind, answers, i);
    }
    if i: nat :| ChecksBreakAt(failFast, pr, policy, answers, i) {
      BreakSettles(failFast, pr, policy, kind, answers, i);
    }
    if i: nat :| Settles(perRule, Some([]), i) {
      SettlesIs(failFast, pr, policy, kind, answers, Some([]), i);
    }
    if i: nat :| Settles(perRule, None, i) {
      SettlesIs(failFast, pr, policy, kind, answers, None, i);
    }
  }

  lemma PassSettles(failFast: bool, pr: PullRequest, policy: Policy, kind: Kind, answers: Answers, i: nat)
    requires ChecksPassAt(failFast, pr, policy, answers, i)
    ensures SettlesOn(ChecksPerRule(failFast, pr, policy, kind, answers), Some([]))
  {
    var perRule := ChecksPerRule(failFast, pr, policy, kind, answers);
    ChecksMetIs(failFast, pr, policy, kind, answers, i);
    var m := SettlesFirst(perRule, i);
    ChecksMetIs(failFast, pr, policy, kind, answers, m);
  }

  lemma BreakSettles(failFast: bool, pr: PullRequest, policy: Policy, kind: Kind, answers: Answers, i: nat)
    requires ChecksBreakAt(failFast, pr, policy, answers, i)
    ensures SettlesOn(ChecksPerRule(failFast, pr, policy, kind, answers), None)
  {
    var perRule := ChecksPerRule(failFast, pr, policy, kind, answers);
    ChecksMetIs(failFast, pr, policy, kind, answers, i);
    var m := SettlesFirst(perRule, i);
    ChecksMetIs(failFast, pr, policy, kind, answers, m);
  }

  lemma SettlesIs(failFast: bool, pr: PullRequest, policy: Policy, kind: Kind, answers: Answers,
                  x: Option<seq<ValidationResult>>, i: nat)
    requires Settles(ChecksPerRule(failFast, pr, policy, kind, answers), x, i)
    ensures x == Some([]) ==> ChecksPassAt(failFast, pr, policy, answers, i)
    ensures x == None ==> ChecksBreakAt(failFast, pr, policy, answers, i)
  {
    ChecksMetIs(failFast, pr, policy, kind, answers, i);
    forall j | 0 <= j < i
      ensures !ChecksMetAt(pr, policy, answers, j) && !ChecksCrashAt(failFast, pr, policy, answers, j)
    {
      ChecksMetIs(failFast, pr, policy, kind, answers, j);
    }
  }

  /** Before a rule that passes or crashes there is a first one. */
  lemma SettlesFirst(perRule: seq<Option<seq<ValidationResult>>>, i: nat) returns (m: nat)
    requires i < |perRule| && (perRule[i].None? || perRule[i] == Some([]))
    ensures m <= i && Settles(perRule, perRule[m], m) && (perRule[m].None? || perRule[m] == Some([]))
  {
    m := Settling(perRule, 0);
  }

  // ---------- fail-fast against full ----------

  ghost predicate Subsequence<T>(a: seq<T>, b: seq<T>) {
    a == [] ||
    (b != [] && (Subsequence(a, b[..|b| - 1]) ||
                 (a[|a| - 1] == b[|b| - 1] && Subsequence(a[..|a| - 1], b[..|b| - 1]))))
  }

  lemma {:induction false} SubsequenceJoin<T>(a: seq<T>, b: seq<T>, c: seq<T>, d: seq<T>)
    requires Subsequence(a, b) && Subsequence(c, d)
    ensures Subsequence(a + c, b + d)
    decreases |d|
  {
    if d == [] {
      assert a + c == a && b + d == b;
    } else {
      var d' := d[..|d| - 1];
      assert (b + d)[..|b + d| - 1] == b + d';
      if c == [] {
        SubsequenceJoin(a, b, c, d');
      } else if Subsequence(c, d') {
        SubsequenceJoin(a, b, c, d');
      } else {
        assert (a + c)[..|a + c| - 1] == a + c[..|c| - 1];
        SubsequenceJoin(a, b, c[..|c| - 1], d');
      }
    }
  }

  lemma {:induction false} HeadIsSubsequence<T>(b: seq<T>)
    ensures Subsequence(Head(b), b)
  {
    if |b| == 1 {
      assert Head(b) == b && b[..0] == [];
    } else if |b| > 1 {
      HeadIsSubsequence(b[..|b| - 1]);
    }
  }

  lemma {:induction false} SubsequenceRefl<T>(b: seq<T>)
    ensures Subsequence(b, b)
  {
    if b != [] {
      SubsequenceRefl(b[..|b| - 1]);
    }
  }

  /** What each rule reports in fail-fast mode, against the full mode. */
  ghost predicate Heads(fast: seq<Option<seq<ValidationResult>>>, full: seq<Option<seq<ValidationResult>>>) {
    |fast| == |full| && forall i | 0 <= i < |full| ::
      && (full[i].Some? ==> fast[i] == Some(Head(full[i].value)))
      && (full[i].None? ==> fast[i] != Some([]))
  }

  lemma {:induction false} HeadsAreSubsequence(fast: seq<seq<ValidationResult>>, full: seq<seq<ValidationResult>>)
    requires |fast| == |full| && forall i | 0 <= i < |full| :: fast[i] == Head(full[i])
    ensures Subsequence(Flat(fast), Flat(full))
  {
    if full != [] {
      var n := |full| - 1;
      HeadsAreSubsequence(fast[..n], full[..n]);
      HeadIsSubsequence(full[n]);
      SubsequenceJoin(Flat(fast[..n]), Flat(full[..n]), fast[n], full[n]);
    }
  }

  /** A rule that settles the full mode, without a crash, settles the fail-fast mode too. */
  lemma SameSettling(fast: seq<Option<seq<ValidationResult>>>, full: seq<Option<seq<ValidationResult>>>)
    requires Heads(fast, full)
    ensures var i := Settling(full, 0);
            i == |full| || full[i].Some? ==> Settling(fast, 0) == i && (i < |full| ==> fast[i] == Some([]))
  {
    var i, j := Settling(full, 0), Settling(fast, 0);
    if i == |full| || full[i].Some? {
      assert i < |full| ==> fast[i] == Some([]);
      assert j < i ==> fast[j] == Some(Head(full[j].value));
    }
  }

  /** What the failing rules report in both modes. */
  lemma FailingRules(fast: seq<Option<seq<ValidationResult>>>, full: seq<Option<seq<ValidationResult>>>)
    requires Heads(fast, full) && full != [] && Settling(full, 0) == |full| == Settling(fast, 0)
    ensures Subsequence(Flat(Values(fast)), Flat(Values(full)))
    ensures Flat(Values(fast)) != [] && Flat(Values(full)) != []
  {
    HeadsAreSubsequence(Values(fast), Values(full));
    FlatEmpty(Values(full), 0);
    FlatEmpty(Values(fast), 0);
  }

  lemma WholeFails(w: seq<ValidationResult>, noRule: seq<ValidationResult>,
                   fast: seq<Option<seq<ValidationResult>>>, full: seq<Option<seq<ValidationResult>>>)
    requires w != []
    ensures Judged(true, Some(Head(w)), noRule, fast) == Report(Head(w), false)
    ensures var all := Judged(false, Some(w), noRule, full);
            all.Report? ==> !all.success && Head(all.results) == Head(w) && Subsequence(Head(w), all.results)
  {
    var all := Judged(false, Some(w), noRule, full);
    if all.Report? {
      HeadIsSubsequence(all.results);
    }
  }

  /** As long as the full mode does not crash, both modes agree on success. What the
      fail-fast mode then reports is part of the full report: its head when the whole
      configuration already fails, else the heads of what each rule reports. The
      fail-fast mode crashes only where the full one does; it may get past a crash. */
  lemma ModesAgree(w: seq<ValidationResult>, noRule: seq<ValidationResult>,
                   fast: seq<Option<seq<ValidationResult>>>, full: seq<Option<seq<ValidationResult>>>)
    requires Heads(fast, full)
    ensures var quick, all := Judged(true, Some(Head(w)), noRule, fast), Judged(false, Some(w), noRule, full);
            && (Succeeds(all) ==> Succeeds(quick))
            && (quick.Crash? ==> all.Crash? && w == [])
            && (all.Report? ==>
                  && quick.Report? && (Succeeds(quick) <==> Succeeds(all))
                  && Subsequence(quick.results, all.results)
                  && (w != [] ==> quick.results == Head(all.results))
                  && (w == [] && full != [] && all.results != [] ==>
                        && Settling(full, 0) == |full| == Settling(fast, 0)
                        && quick.results == Flat(Values(fast)) && all.results == Flat(Values(full))))
  {
    if w != [] {
      WholeFails(w, noRule, fast, full);
    } else {
      RulesAgree(noRule, fast, full);
    }
  }

  lemma RulesAgree(noRule: seq<ValidationResult>, fast: seq<Option<seq<ValidationResult>>>,
                   full: seq<Option<seq<ValidationResult>>>)
    requires Heads(fast, full)
    ensures var quick, all := Judged(true, Some([]), noRule, fast), Judged(false, Some([]), noRule, full);
            && (quick.Crash? ==> all.Crash?)
            && (all.Report? ==>
                  && quick.Report? && (Succeeds(quick) <==> Succeeds(all))
                  && Subsequence(quick.results, all.results)
                  && (full != [] && all.results != [] ==>
                        && Settling(full, 0) == |full| == Settling(fast, 0)
                        && quick.results == Flat(Values(fast)) && all.results == Flat(Values(full))))
  {
    var i := Settling(full, 0);
    SameSettling(fast, full);
    if full == [] {
      SubsequenceRefl([] + noRule);
    } else if i == |full| {
      FailingRules(fast, full);
      NothingBefore(Flat(Values(fast)));
      NothingBefore(Flat(Values(full)));
    }
  }

  lemma NothingBefore<T>(xs: seq<T>)
    ensures [] + xs == xs
  {
  }

  lemma ConditionsHeads(pr: PullRequest, policy: Policy, kind: Kind, answers: Answers)
    ensures Heads(ConditionsPerRule(true, pr, policy, kind, answers),
                  ConditionsPerRule(false, pr, policy, kind, answers))
  {
    var selected := Selected(policy.rules, pr.headRef);
    ConditionsLength(true, pr, policy, selected, kind, answers);
    ConditionsLength(false, pr, policy, selected, kind, answers);
    var fast := ConditionsPerRule(true, pr, policy, kind, answers);
    var full := ConditionsPerRule(false, pr, policy, kind, answers);
    forall i | 0 <= i < |selected|
      ensures full[i].Some? ==> fast[i] == Some(Head(full[i].value))
      ensures full[i].None? ==> fast[i] != Some([])
    {
      ConditionsAt(true, pr, policy, selected, kind, answers, i);
      ConditionsAt(false, pr, policy, selected, kind, answers, i);
      if selected[i].Some? && selected[i].value in policy.rules {
        GatherModes(ConditionsOfRule(pr, selected[i].value, policy.rules[selected[i].value], kind, answers.now(i + 1)));
      }
    }
  }

  lemma ChecksHeads(pr: PullRequest, policy: Policy, kind: Kind, answers: Answers)
    ensures Heads(ChecksPerRule(true, pr, policy, kind, answers), ChecksPerRule(false, pr, policy, kind, answers))
  {
    var selected := Selected(policy.rules, pr.headRef);
    ChecksLength(true, policy, selected, kind, answers);
    ChecksLength(false, policy, selected, kind, answers);
    var fast, full := ChecksPerRule(true, pr, policy, kind, answers), ChecksPerRule(false, pr, policy, kind, answers);
    forall i | 0 <= i < |selected|
      ensures full[i].Some? ==> fast[i] == Some(Head(full[i].value))
      ensures full[i].None? ==> fast[i] != Some([])
    {
      ChecksAt(true, policy, selected, kind, answers, i);
      ChecksAt(false, policy, selected, kind, answers, i);
      if selected[i].Some? && selected[i].value in policy.rules {
        GatherModes(ChecksOfRule(selected[i].value, policy.rules[selected[i].value], kind,
                                 answers.comments(i + 1), answers.checks(i + 1)));
      }
    }
  }

  /** The two reports of a gate. */
  ghost predicate Agree(quick: Report, all: Report) {
    && (Succeeds(all) ==> Succeeds(quick)) && (quick.Crash? ==> all.Crash?)
    && (all.Report? ==>
          quick.Report? && (Succeeds(quick) <==> Succeeds(all)) && Subsequence(quick.results, all.results))
  }

  lemma ConditionsAgree(pr: PullRequest, policy: Policy, kind: Kind, answers: Answers)
    ensures Agree(ConditionsReport(true, Some(pr), policy, kind, answers),
                  ConditionsReport(false, Some(pr), policy, kind, answers))
  {
    var vals := ConditionsOfAll(pr, policy, kind);
    ConditionsWhole(false, pr, policy, kind);
    GatherModes(vals);
    ConditionsHeads(pr, policy, kind, answers);
    ModesAgree(Gather(false, vals).value, NO_BRANCH, ConditionsPerRule(true, pr, policy, kind, answers),
               ConditionsPerRule(false, pr, policy, kind, answers));
  }

  lemma ChecksAgree(pr: PullRequest, policy: Policy, kind: Kind, answers: Answers)
    ensures Agree(ChecksReport(true, Some(pr), policy, kind, answers),
                  ChecksReport(false, Some(pr), policy, kind, answers))
  {
    var vals := ChecksOfAll(policy.comments, kind, answers.comments(0));
    ChecksWhole(false, policy, kind, answers.comments(0));
    GatherModes(vals);
    ChecksHeads(pr, policy, kind, answers);
    ModesAgree(Gather(false, vals).value, [], ChecksPerRule(true, pr, policy, kind, answers),
               ChecksPerRule(false, pr, policy, kind, answers));
  }

  /** The agreement for both gates; as their conditions never crash but on a nil rule,
      the conditions gate agrees on success without exception. */
  lemma FailFastAgrees(pr: PullRequest, policy: Policy, kind: Kind, answers: Answers)
    ensures Agree(ConditionsReport(true, Some(pr), policy, kind, answers),
                  ConditionsReport(false, Some(pr), policy, kind, answers))
    ensures Succeeds(ConditionsReport(true, Some(pr), policy, kind, answers)) <==>
            Succeeds(ConditionsReport(false, Some(pr), policy, kind, answers))
    ensures Agree(ChecksReport(true, Some(pr), policy, kind, answers),
                  ChecksReport(false, Some(pr), policy, kind, answers))
  {
    ConditionsAgree(pr, policy, kind, answers);
    ChecksAgree(pr, policy, kind, answers);
    ConditionsSpec(true, pr, policy, kind, answers);
    ConditionsSpec(false, pr, policy, kind, answers);
  }

  /** Of these two rules the first needs a comment and a status. */
  function NeedsThenNot(a: string, b: string, c: Comment, n: string): Policy {
    Policy([], [], [], map[a := Rule([], [n], [], None, [], [c], false), b := Rule([], [], [], None, [], [], false)])
  }

  const UNREADABLE := Answers((n: nat) => Ok([]), (n: nat) => None, (n: nat) => 0)

  lemma NeedsThenNotRules(a: string, b: string, c: Comment, n: string, pr: PullRequest)
    requires Less(a, b)
    ensures var policy := NeedsThenNot(a, b, c, n);
            && RuleAt(policy, pr, 0) == Some(Rule([], [n], [], None, [], [c], false))
            && RuleAt(policy, pr, 1) == Some(Rule([], [], [], None, [], [], false))
            && |Selected(policy.rules, pr.headRef)| == 2
  {
    LessTotal(a, b);
    TwoSelected(NeedsThenNot(a, b, c, n), a, b, pr);
  }

  /** When the comment is missing and reading the statuses crashes, the fail-fast mode
      gets past the first rule and passes by the second, while the full mode crashes. */
  lemma ModesCanDiffer(a: string, b: string, c: Comment, n: string, pr: PullRequest)
    requires Less(a, b)
    ensures var policy := NeedsThenNot(a, b, c, n);
            ChecksMet(true, pr, policy, UNREADABLE) && ChecksCrash(false, pr, policy, UNREADABLE)
  {
    NeedsThenNotRules(a, b, c, n, pr);
    SecondRulePasses(NeedsThenNot(a, b, c, n), pr, c, n);
  }

  lemma SecondRulePasses(policy: Policy, pr: PullRequest, c: Comment, n: string)
    requires policy.comments == [] && |Selected(policy.rules, pr.headRef)| == 2
    requires RuleAt(policy, pr, 0) == Some(Rule([], [n], [], None, [], [c], false))
    requires RuleAt(policy, pr, 1) == Some(Rule([], [], [], None, [], [], false))
    ensures ChecksMet(true, pr, policy, UNREADABLE) && ChecksCrash(false, pr, policy, UNREADABLE)
  {
    assert c in [c] && !CommentsOk([c], Ok([]));
    assert ChecksPassAt(true, pr, policy, UNREADABLE, 1) && ChecksBreakAt(false, pr, policy, UNREADABLE, 0);
  }

  /** Two rules for every branch are selected in the order of their keys. */
  lemma TwoSelected(policy: Policy, a: string, b: string, pr: PullRequest)
    requires Less(a, b) && policy.rules.Keys == {a, b}
    requires forall k | k in policy.rules :: policy.rules[k].prefix == [] && !policy.rules[k].strict
    ensures Selected(policy.rules, pr.headRef) == [Some(a), Some(b)]
  {
    SelectedAll(policy.rules, pr.headRef);
    var keys := MatchingOf(policy.rules, Sorted(policy.rules.Keys), pr.headRef);
    assert forall k :: k in keys <==> k in [a, b];
    AscendingUnique(keys, [a, b]);
  }

  // ---------- what a gate reports ----------

  /** Some of these validations finds this. */
  ghost predicate FoundBy(vals: seq<Validation>, r: ValidationResult) {
    exists v | v in vals :: !Breaks(v) && r in Found(v)
  }

  /** A list reports only what its validations find, and in full mode all of it. */
  lemma {:induction false} GatherHas(failFast: bool, vals: seq<Validation>, r: ValidationResult)
    requires Gather(failFast, vals).Some?
    ensures r in Gather(failFast, vals).value ==> FoundBy(vals, r)
    ensures !failFast && FoundBy(vals, r) ==> r in Gather(failFast, vals).value
  {
    if vals != [] {
      var before, last := vals[..|vals| - 1], vals[|vals| - 1];
      GatherHas(failFast, before, r);
      assert forall v :: v in vals <==> v in before || v == last;
      if failFast && Gather(failFast, before).value != [] {
      } else {
        assert r in Cut(failFast, Found(last)) ==> r in Found(last);
      }
    }
  }

  lemma {:induction false} FlatHas(lists: seq<seq<ValidationResult>>, r: ValidationResult)
    ensures r in Flat(lists) <==> exists i | 0 <= i < |lists| :: r in lists[i]
  {
    if lists != [] {
      var n := |lists| - 1;
      FlatHas(lists[..n], r);
      if i :| 0 <= i < n && r in lists[i] {
        assert r in lists[..n][i];
      }
    }
  }

  /** What is reported of the rules: nothing once one passes. */
  ghost predicate RulesReport(perRule: seq<Option<seq<ValidationResult>>>, r: ValidationResult) {
    && (forall i | 0 <= i < |perRule| :: perRule[i].Some? && perRule[i] != Some([]))
    && exists i | 0 <= i < |perRule| :: r in perRule[i].value
  }

  lemma JudgedHas(failFast: bool, w: seq<ValidationResult>, noRule: seq<ValidationResult>,
                  perRule: seq<Option<seq<ValidationResult>>>, r: ValidationResult)
    requires Judged(failFast, Some(w), noRule, perRule).Report?
    ensures var results := Judged(failFast, Some(w), noRule, perRule).results;
            if failFast && w != [] then results == w
            else r in results <==> r in w || if perRule == [] then r in noRule else RulesReport(perRule, r)
  {
    if !(failFast && w != []) && perRule != [] {
      var i := Settling(perRule, 0);
      if i == |perRule| {
        FlatHas(Values(perRule), r);
        assert forall j | 0 <= j < |perRule| :: Values(perRule)[j] == perRule[j].value;
      }
    }
  }

  /** What the conditions gate says about the whole configuration, and about one rule. */
  ghost predicate ConditionsSayOfAll(pr: PullRequest, policy: Policy, kind: Kind, r: ValidationResult) {
    || Says(ForAuthors(pr.owner, policy.authors, kind, Whole), r)
    || Says(ForLabels(pr.labels, policy.labels, kind, Whole), r)
  }

  ghost predicate ConditionsSayOf(pr: PullRequest, k: string, rule: Rule, kind: Kind, now: int, r: ValidationResult) {
    || Says(ForAuthors(pr.owner, rule.authors, kind, OfRule(k, rule.prefix)), r)
    || Says(ForLabels(pr.labels, rule.labels, kind, OfRule(k, rule.prefix)), r)
    || Says(ForAge(rule.age, pr.createdAt, now, kind, OfRule(k, rule.prefix)), r)
  }

  lemma FoundBySays(vals: seq<Validation>, r: ValidationResult)
    requires FoundBy(vals, r)
    ensures exists v | v in vals :: Says(v, r)
  {
    var v :| v in vals && !Breaks(v) && r in Found(v);
    FoundSays(v, r);
  }

  /** Whatever the conditions gate reports is wrong with the whole configuration; or no
      rule is selected and it says so; or no rule is met, and it is wrong with a rule. */
  lemma ConditionsReported(failFast: bool, pr: PullRequest, policy: Policy, kind: Kind, answers: Answers,
                           r: ValidationResult)
    requires var report := ConditionsReport(failFast, Some(pr), policy, kind, answers);
             report.Report? && r in report.results
    ensures || ConditionsSayOfAll(pr, policy, kind, r)
            || (Selected(policy.rules, pr.headRef) == [] && r == ValidationResult(Whole, BranchReason, BranchNotFound))
            || (&& (forall j: nat :: !ConditionsMetAt(pr, policy, answers, j))
                && exists i: nat | RuleAt(policy, pr, i).Some? ::
                     ConditionsSayOf(pr, KeyAt(policy, pr, i), RuleAt(policy, pr, i).value, kind,
                                     answers.now(i + 1), r))
  {
    var all, perRule := ConditionsOfAll(pr, policy, kind), ConditionsPerRule(failFast, pr, policy, kind, answers);
    var selected := Selected(policy.rules, pr.headRef);
    ConditionsWhole(failFast, pr, policy, kind);
    var w := Gather(failFast, all).value;
    JudgedHas(failFast, w, NO_BRANCH, perRule, r);
    ConditionsLength(failFast, pr, policy, selected, kind, answers);
    if r in w {
      GatherHas(failFast, all, r);
      FoundBySays(all, r);
    } else if perRule != [] {
      var i :| 0 <= i < |perRule| && r in perRule[i].value;
      forall j: nat ensures !ConditionsMetAt(pr, policy, answers, j) {
        ConditionsMetIs(failFast, pr, policy, kind, answers, j);
      }
      ConditionsAt(failFast, pr, policy, selected, kind, answers, i);
      ConditionsOfRuleSay(failFast, pr, selected[i].value, policy.rules[selected[i].value], kind,
                          answers.now(i + 1), r);
      assert RuleAt(policy, pr, i) == Some(policy.rules[selected[i].value]);
    }
  }

  lemma ConditionsOfRuleSay(failFast: bool, pr: PullRequest, k: string, rule: Rule, kind: Kind, now: int,
                            r: ValidationResult)
    requires var found := Gather(failFast, ConditionsOfRule(pr, k, rule, kind, now));
             found.Some? && r in found.value
    ensures ConditionsSayOf(pr, k, rule, kind, now, r)
  {
    GatherHas(failFast, ConditionsOfRule(pr, k, rule, kind, now), r);
    FoundBySays(ConditionsOfRule(pr, k, rule, kind, now), r);
  }

  ghost predicate ChecksSayOf(k: string, rule: Rule, kind: Kind, comments: CommentsAnswer, checks: ChecksAnswer,
                              r: ValidationResult)
  {
    || Says(ForComments(comments, rule.comments, kind, OfRule(k, rule.prefix)), r)
    || Says(ForRequiredStatuses(checks, rule.requiredStatuses, OfRule(k, rule.prefix)), r)
  }

  /** The same for the comments and checks gate, which says nothing when no rule is selected. */
  lemma ChecksReported(failFast: bool, pr: PullRequest, policy: Policy, kind: Kind, answers: Answers,
                       r: ValidationResult)
    requires var report := ChecksReport(failFast, Some(pr), policy, kind, answers);
             report.Report? && r in report.results
    ensures || Says(ForComments(answers.comments(0), policy.comments, kind, Whole), r)
            || (&& (forall j: nat :: !ChecksMetAt(pr, policy, answers, j))
                && exists i: nat | RuleAt(policy, pr, i).Some? ::
                     ChecksSayOf(KeyAt(policy, pr, i), RuleAt(policy, pr, i).value, kind, answers.comments(i + 1),
                                 answers.checks(i + 1), r))
  {
    var all := ChecksOfAll(policy.comments, kind, answers.comments(0));
    var perRule := ChecksPerRule(failFast, pr, policy, kind, answers);
    var selected := Selected(policy.rules, pr.headRef);
    ChecksWhole(failFast, policy, kind, answers.comments(0));
    var w := Gather(failFast, all).value;
    JudgedHas(failFast, w, [], perRule, r);
    ChecksLength(failFast, policy, selected, kind, answers);
    if r in w {
      GatherHas(failFast, all, r);
      FoundBySays(all, r);
    } else {
      var i: nat :| 0 <= i < |perRule| && r in perRule[i].value;
      forall j: nat ensures !ChecksMetAt(pr, policy, answers, j) {
        ChecksMetIs(failFast, pr, policy, kind, answers, j);
      }
      ChecksAt(failFast, policy, selected, kind, answers, i);
      ChecksOfRuleSay(failFast, selected[i].value, policy.rules[selected[i].value], kind,
                      answers.comments(i + 1), answers.checks(i + 1), r);
      assert RuleAt(policy, pr, i) == Some(policy.rules[selected[i].value]);
    }
  }

  lemma ChecksOfRuleSay(failFast: bool, k: string, rule: Rule, kind: Kind, comments: CommentsAnswer,
                        checks: ChecksAnswer, r: ValidationResult)
    requires var found := Gather(failFast, ChecksOfRule(k, rule, kind, comments, checks));
             found.Some? && r in found.value
    ensures ChecksSayOf(k, rule, kind, comments, checks, r)
  {
    GatherHas(failFast, ChecksOfRule(k, rule, kind, comments, checks), r);
    FoundBySays(ChecksOfRule(k, rule, kind, comments, checks), r);
  }

  /** In full mode nothing found goes unreported: not of the whole configuration, and not
      of a selected rule unless some rule is met. */
  lemma AllReported(pr: PullRequest, policy: Policy, kind: Kind, answers: Answers, r: ValidationResult)
    requires ConditionsReport(false, Some(pr), policy, kind, answers).Report?
    requires FoundBy(ConditionsOfAll(pr, policy, kind), r)
    ensures r in ConditionsReport(false, Some(pr), policy, kind, answers).results
  {
    var all := ConditionsOfAll(pr, policy, kind);
    ConditionsWhole(false, pr, policy, kind);
    GatherHas(false, all, r);
    JudgedHas(false, Gather(false, all).value, NO_BRANCH, ConditionsPerRule(false, pr, policy, kind, answers), r);
  }

  lemma AllReportedOf(pr: PullRequest, policy: Policy, kind: Kind, answers: Answers, r: ValidationResult, i: nat)
    requires ConditionsReport(false, Some(pr), policy, kind, answers).Report?
    requires (forall j: nat :: !ConditionsMetAt(pr, policy, answers, j)) && RuleAt(policy, pr, i).Some?
    requires var rule := RuleAt(policy, pr, i).value;
             FoundBy(ConditionsOfRule(pr, KeyAt(policy, pr, i), rule, kind, answers.now(i + 1)), r)
    ensures r in ConditionsReport(false, Some(pr), policy, kind, answers).results
  {
    var perRule := ConditionsPerRule(false, pr, policy, kind, answers);
    NoneMet(pr, policy, kind, answers);
    RuleReports(pr, policy, kind, answers, r, i);
    assert RulesReport(perRule, r);
    ConditionsWhole(false, pr, policy, kind);
    JudgedHas(false, Gather(false, ConditionsOfAll(pr, policy, kind)).value, NO_BRANCH, perRule, r);
  }

  lemma RuleReports(pr: PullRequest, policy: Policy, kind: Kind, answers: Answers, r: ValidationResult, i: nat)
    requires RuleAt(policy, pr, i).Some?
    requires var rule := RuleAt(policy, pr, i).value;
             FoundBy(ConditionsOfRule(pr, KeyAt(policy, pr, i), rule, kind, answers.now(i + 1)), r)
    ensures var perRule := ConditionsPerRule(false, pr, policy, kind, answers);
            i < |perRule| && perRule[i].Some? && r in perRule[i].value
  {
    var k, rule := KeyAt(policy, pr, i), RuleAt(policy, pr, i).value;
    ConditionsAt(false, pr, policy, Selected(policy.rules, pr.headRef), kind, answers, i);
    ConditionsRule(false, pr, k, rule, kind, answers.now(i + 1));
    GatherHas(false, ConditionsOfRule(pr, k, rule, kind, answers.now(i + 1)), r);
  }

  lemma NoneMet(pr: PullRequest, policy: Policy, kind: Kind, answers: Answers)
    requires ConditionsReport(false, Some(pr), policy, kind, answers).Report?
    requires forall j: nat :: !ConditionsMetAt(pr, policy, answers, j)
    ensures var perRule := ConditionsPerRule(false, pr, policy, kind, answers);
            && |perRule| == |Selected(policy.rules, pr.headRef)|
            && forall i | 0 <= i < |perRule| :: perRule[i].Some? && perRule[i] != Some([])
  {
    var perRule := ConditionsPerRule(false, pr, policy, kind, answers);
    ConditionsSpec(false, pr, policy, kind, answers);
    ConditionsLength(false, pr, policy, Selected(policy.rules, pr.headRef), kind, answers);
    forall i | 0 <= i < |perRule| ensures perRule[i].Some? && perRule[i] != Some([]) {
      ConditionsMetIs(false, pr, policy, kind, answers, i);
      RuleAtIs(policy, pr, i);
    }
  }

  /** What a passing conditions gate says of the age of the pull request: some selected
      rule is met, and if it asks for an age, then the pull request is older. */
  lemma OldEnough(failFast: bool, pr: PullRequest, policy: Policy, kind: Kind, answers: Answers)
    requires Succeeds(ConditionsReport(failFast, Some(pr), policy, kind, answers))
    ensures exists i: nat | RuleAt(policy, pr, i).Some? ::
              var rule, now := RuleAt(policy, pr, i).value, answers.now(i + 1);
              && RuleConditions(rule, pr, now)
              && (rule.age.Some? && rule.age.value >= 0 ==>
                    pr.createdAt.Some? && pr.createdAt.value + rule.age.value < now)
  {
    ConditionsSpec(failFast, pr, policy, kind, answers);
    var i: nat :| ConditionsMetAt(pr, policy, answers, i);
    assert RuleAt(policy, pr, i).Some?;
  }

  // In which order it is reported.

  /** One finding unless the requirement is met. */
  function Unless(ok: bool, scope: Scope, reason: Reason, message: Message): seq<ValidationResult> {
    if ok then [] else [ValidationResult(scope, reason, message)]
  }

  lemma GatherOne(a: Validation)
    requires !Breaks(a)
    ensures Gather(false, [a]) == Some(Found(a)) && Gather(true, [a]) == Some(Head(Found(a)))
  {
    assert [a][..0] == [] && Gather(false, []) == Gather(true, []) == Some([]);
    NothingBefore(Found(a));
    NothingBefore(Head(Found(a)));
  }

  lemma GatherTwo(a: Validation, b: Validation)
    requires !Breaks(a) && !Breaks(b)
    ensures Gather(false, [a, b]) == Some(Found(a) + Found(b))
    ensures Gather(true, [a, b]) == Some(if Found(a) != [] then Head(Found(a)) else Head(Found(b)))
  {
    assert [a, b][..1] == [a];
    GatherOne(a);
    NothingBefore(Head(Found(b)));
  }

  /** Of the whole configuration the author comes first, then the labels. */
  lemma WholeInOrder(pr: PullRequest, policy: Policy, kind: Kind)
    ensures var author := Unless(AuthorOk(policy.authors, pr.owner), Whole, AuthorReason, AuthorNotApproved(kind));
            var labels := Unless(LabelsOk(policy.labels, pr.labels), Whole, LabelsReason, LabelsDiffer(kind));
            && Gather(false, ConditionsOfAll(pr, policy, kind)) == Some(author + labels)
            && Gather(true, ConditionsOfAll(pr, policy, kind)) == Some(if author != [] then author else labels)
  {
    var a, l := ForAuthors(pr.owner, policy.authors, kind, Whole), ForLabels(pr.labels, policy.labels, kind, Whole);
    FoundMeans(a);
    FoundMeans(l);
    GatherTwo(a, l);
  }

  lemma GatherThree(a: Validation, b: Validation, c: Validation)
    requires !Breaks(a) && !Breaks(b) && !Breaks(c)
    ensures Gather(false, [a, b, c]) == Some(Found(a) + Found(b) + Found(c))
    ensures Gather(true, [a, b, c]) ==
            Some(if Found(a) != [] then Head(Found(a)) else if Found(b) != [] then Head(Found(b)) else Head(Found(c)))
  {
    assert [a, b, c][..2] == [a, b];
    GatherTwo(a, b);
    NothingBefore(Head(Found(c)));
  }

  /** Of a rule the author comes first, then the labels, then the age. */
  lemma RuleInOrder(pr: PullRequest, k: string, rule: Rule, kind: Kind, now: int)
    ensures var scope := OfRule(k, rule.prefix);
            var author := Unless(AuthorOk(rule.authors, pr.owner), scope, AuthorReason, AuthorNotApproved(kind));
            var labels := Unless(LabelsOk(rule.labels, pr.labels), scope, LabelsReason, LabelsDiffer(kind));
            var age := Unless(AgeOk(rule.age, pr.createdAt, now), scope, AgeReason,
                              if pr.createdAt.None? then AgeUnknown(kind) else TooYoung(kind));
            && Gather(false, ConditionsOfRule(pr, k, rule, kind, now)) == Some(author + labels + age)
            && Gather(true, ConditionsOfRule(pr, k, rule, kind, now)) ==
               Some(if author != [] then author else if labels != [] then labels else age)
  {
    var scope := OfRule(k, rule.prefix);
    var a, l := ForAuthors(pr.owner, rule.authors, kind, scope), ForLabels(pr.labels, rule.labels, kind, scope);
    var g := ForAge(rule.age, pr.createdAt, now, kind, scope);
    FoundMeans(a);
    FoundMeans(l);
    FoundMeans(g);
    GatherThree(a, l, g);
  }

  /** Of a rule the comments come before the statuses, and what is missing of the comments
      one by one. */
  lemma ChecksInOrder(k: string, rule: Rule, kind: Kind, comments: CommentsAnswer, checks: ChecksAnswer)
    requires rule.requiredStatuses == [] || checks.Some?
    ensures var scope := OfRule(k, rule.prefix);
            var ofComments := Found(ForComments(comments, rule.comments, kind, scope));
            var ofStatuses := Found(ForRequiredStatuses(checks, rule.requiredStatuses, scope));
            && Gather(false, ChecksOfRule(k, rule, kind, comments, checks)) == Some(ofComments + ofStatuses)
            && Gather(true, ChecksOfRule(k, rule, kind, comments, checks)) ==
               Some(if ofComments != [] then Head(ofComments) else Head(ofStatuses))
  {
    var scope := OfRule(k, rule.prefix);
    GatherTwo(ForComments(comments, rule.comments, kind, scope),
              ForRequiredStatuses(checks, rule.requiredStatuses, scope));
  }

  /** How much the lists before number `i` hold. */
  function LengthBefore(lists: seq<seq<ValidationResult>>, i: nat): nat
    requires i <= |lists|
  {
    if i == 0 then 0 else LengthBefore(lists, i - 1) + |lists[i - 1]|
  }

  lemma {:induction false} LengthCut(lists: seq<seq<ValidationResult>>, n: nat, i: nat)
    requires i <= n <= |lists|
    ensures LengthBefore(lists[..n], i) == LengthBefore(lists, i)
  {
    if i > 0 {
      LengthCut(lists, n, i - 1);
    }
  }

  lemma {:induction false} FlatLength(lists: seq<seq<ValidationResult>>)
    ensures |Flat(lists)| == LengthBefore(lists, |lists|)
  {
    if lists != [] {
      FlatLength(lists[..|lists| - 1]);
      LengthCut(lists, |lists| - 1, |lists| - 1);
    }
  }

  lemma {:induction false} FlatAt(lists: seq<seq<ValidationResult>>, i: nat, j: nat)
    requires i < |lists| && j < |lists[i]|
    ensures LengthBefore(lists, i) + j < |Flat(lists)| && Flat(lists)[LengthBefore(lists, i) + j] == lists[i][j]
  {
    var n := |lists| - 1;
    LengthCut(lists, n, i);
    if i < n {
      FlatAt(lists[..n], i, j);
    } else {
      FlatLength(lists[..n]);
    }
  }

  /** When no rule passes, what is reported of them follows what is reported of the whole
      configuration, rule by rule in the order of selection. */
  lemma RulesInOrder(failFast: bool, w: seq<ValidationResult>, noRule: seq<ValidationResult>,
                     perRule: seq<Option<seq<ValidationResult>>>, i: nat, j: nat)
    requires !(failFast && w != []) && forall m | 0 <= m < |perRule| :: perRule[m].Some? && perRule[m] != Some([])
    requires i < |perRule| && j < |perRule[i].value|
    ensures var report := Judged(failFast, Some(w), noRule, perRule);
            var at := |w| + (LengthBefore(Values(perRule), i) + j);
            && report.Report? && w <= report.results
            && at < |report.results| && report.results[at] == perRule[i].value[j]
  {
    var lists := Values(perRule);
    NonePasses(failFast, w, noRule, perRule);
    FlatAt(lists, i, j);
    AppendedAt(w, Flat(lists), LengthBefore(lists, i) + j);
  }

  lemma NonePasses(failFast: bool, w: seq<ValidationResult>, noRule: seq<ValidationResult>,
                   perRule: seq<Option<seq<ValidationResult>>>)
    requires !(failFast && w != []) && perRule != []
    requires forall m | 0 <= m < |perRule| :: perRule[m].Some? && perRule[m] != Some([])
    ensures Judged(failFast, Some(w), noRule, perRule).Report?
    ensures Judged(failFast, Some(w), noRule, perRule).results == w + Flat(Values(perRule))
  {
    assert Settling(perRule, 0) == |perRule|;
  }

  lemma AppendedAt(a: seq<ValidationResult>, b: seq<ValidationResult>, i: nat)
    requires i < |b|
    ensures a <= a + b && (a + b)[|a| + i] == b[i]
  {
  }

  // ---------- the two gates together ----------

  /** A selection holds the nil rule, on which both gates crash, exactly when a
      strict rule matches and no rule from the first strict match on has a prefix. */
  lemma CrashesIff(rules: map<string, Rule>, headRef: string)
    ensures None in Selected(rules, headRef) <==>
            HasStrict(rules, headRef) && forall c | Candidate(rules, headRef, c) :: rules[c].prefix == ""
  {
    if HasStrict(rules, headRef) {
      SelectedOne(rules, headRef);
      assert None in Selected(rules, headRef) <==> Selected(rules, headRef)[0].None?;
    } else {
      SelectedAll(rules, headRef);
    }
  }

  /** When a single rule is selected, both gates are passed by it. */
  lemma SingleRulePassesBoth(failFast: bool, pr: PullRequest, other: PullRequest, policy: Policy, answers: Answers,
                             later: Answers)
    requires other.headRef == pr.headRef && |Selected(policy.rules, pr.headRef)| == 1
    requires ConditionsMet(pr, policy, answers) && ChecksMet(failFast, other, policy, later)
    ensures exists k | k in policy.rules ::
              && Selected(policy.rules, pr.headRef) == [Some(k)]
              && RuleConditions(policy.rules[k], pr, answers.now(1))
              && RuleChecks(policy.rules[k], later.comments(1), later.checks(1))
  {
    var i: nat :| ConditionsMetAt(pr, policy, answers, i);
    var j: nat :| ChecksPassAt(failFast, other, policy, later, j);
    var k := Selected(policy.rules, pr.headRef)[0].value;
    assert i == 0 && j == 0 && RuleAt(policy, pr, 0) == Some(policy.rules[k]);
  }

  /** So with a strict match, when the winner passes both. */
  lemma StrictGatesShareRule(failFast: bool, pr: PullRequest, other: PullRequest, policy: Policy, answers: Answers,
                             later: Answers)
    requires other.headRef == pr.headRef && HasStrict(policy.rules, pr.headRef)
    requires ConditionsMet(pr, policy, answers) && ChecksMet(failFast, other, policy, later)
    ensures exists k | k in policy.rules ::
              && Candidate(policy.rules, pr.headRef, k)
              && RuleConditions(policy.rules[k], pr, answers.now(1))
              && RuleChecks(policy.rules[k], later.comments(1), later.checks(1))
  {
    SelectedOne(policy.rules, pr.headRef);
    SingleRulePassesBoth(failFast, pr, other, policy, answers, later);
  }

  /** With more rules, different ones may pass the two gates: of these two rules one
      asks for an author and a comment, the other for another author. */
  function TwoRules(a: string, b: string, author: string, other: string, c: Comment): Policy {
    Policy([], [], [],
           map[a := Rule([], [], [author], None, [], [c], false), b := Rule([], [], [other], None, [], [], false)])
  }

  const NO_EVIDENCE := Answers((n: nat) => Ok([]), (n: nat) => Some(Ok([])), (n: nat) => 0)

  lemma SelectedHas(policy: Policy, pr: PullRequest, k: string) returns (i: nat)
    requires !HasStrict(policy.rules, pr.headRef) && Matching(policy.rules, pr.headRef, k)
    ensures RuleAt(policy, pr, i) == Some(policy.rules[k])
  {
    SelectedAll(policy.rules, pr.headRef);
    var keys := MatchingOf(policy.rules, Sorted(policy.rules.Keys), pr.headRef);
    i :| 0 <= i < |keys| && keys[i] == k;
  }

  lemma GatesCanDiffer(a: string, b: string, author: string, other: string, c: Comment, pr: PullRequest)
    requires a != b && author != other && pr.owner == author
    ensures var policy := TwoRules(a, b, author, other, c);
            && ConditionsMet(pr, policy, NO_EVIDENCE) && ChecksMet(false, pr, policy, NO_EVIDENCE)
            && forall k | k in policy.rules ::
                 !(RuleConditions(policy.rules[k], pr, 0) && RuleChecks(policy.rules[k], Ok([]), Some(Ok([]))))
  {
    var policy := TwoRules(a, b, author, other, c);
    var rules := policy.rules;
    var i := SelectedHas(policy, pr, a);
    var j := SelectedHas(policy, pr, b);
    assert ConditionsMetAt(pr, policy, NO_EVIDENCE, i);
    forall m | 0 <= m < j ensures !ChecksCrashAt(false, pr, policy, NO_EVIDENCE, m) {
      RuleAtIs(policy, pr, m);
    }
    assert ChecksPassAt(false, pr, policy, NO_EVIDENCE, j);
    assert c in rules[a].comments && !CommentsOk(rules[a].comments, Ok([]));
  }

  // ---------- more evidence never hurts ----------

  ghost predicate Within<T>(a: Result<seq<T>, string>, b: Result<seq<T>, string>) {
    a.Ok? ==> b.Ok? && forall x | x in a.value :: x in b.value
  }

  /** The finished statuses of the first answer are also finished in the second, and
      reading the second does not crash if reading the first did not. */
  ghost predicate FinishedWithin(a: ChecksAnswer, b: ChecksAnswer) {
    && (a.Some? ==> b.Some?)
    && (Known(a) ==> Known(b) && forall s | s in a.value.value && Finished(s.state) ::
          exists t | t in b.value.value :: t.name == s.name && Finished(t.state))
  }

  /** The second set of answers comes no earlier and shows at least as much. */
  ghost predicate NoLessEvidence(a: Answers, b: Answers) {
    forall i: nat ::
      && Within(a.comments(i), b.comments(i))
      && FinishedWithin(a.checks(i), b.checks(i))
      && a.now(i) <= b.now(i)
  }

  /** The same pull request with at least the same labels. */
  ghost predicate NoFewerLabels(a: PullRequest, b: PullRequest) {
    && a.owner == b.owner && a.headRef == b.headRef && a.createdAt == b.createdAt
    && forall l | l in a.labels :: l in b.labels
  }

  lemma AgeMonotone(age: Option<int>, createdAt: Option<int>, now: int, later: int)
    requires AgeOk(age, createdAt, now) && now <= later
    ensures AgeOk(age, createdAt, later)
  {
    if age.Some? {
      var least := if age.value == -0x8000_0000_0000_0000 then 0x8000_0000_0000_0000 else age.value;
      SecondsLater(createdAt.value, now - least, later - least);
    }
  }

  lemma SecondsLater(a: int, b: int, c: int)
    requires SecondsLie(a, b) && b <= c
    ensures SecondsLie(a, c)
  {
    var k :| SecondBetween(a, k, b);
    assert SecondBetween(a, k, c);
  }

  lemma CommentsMonotone(required: seq<Comment>, a: CommentsAnswer, b: CommentsAnswer)
    requires CommentsOk(required, a) && Within(a, b)
    ensures CommentsOk(required, b)
  {
  }

  lemma StatusesMonotone(required: seq<string>, a: ChecksAnswer, b: ChecksAnswer)
    requires StatusesOk(required, a) && FinishedWithin(a, b)
    ensures StatusesOk(required, b)
  {
  }

  /** Neither more labels, comments or finished statuses nor a later time turn a passing
      verdict into a failing one. In fail-fast mode a missing comment can keep the gate
      from a crash; there the later statuses must all be readable. */
  lemma EvidenceMonotone(failFast: bool, kind: Kind, policy: Policy, pr: PullRequest, pr': PullRequest,
                         answers: Answers, answers': Answers)
    requires NoFewerLabels(pr, pr') && NoLessEvidence(answers, answers')
    ensures Succeeds(ConditionsReport(failFast, Some(pr), policy, kind, answers)) ==>
            Succeeds(ConditionsReport(failFast, Some(pr'), policy, kind, answers'))
    ensures Succeeds(ChecksReport(failFast, Some(pr), policy, kind, answers)) &&
            (failFast ==> forall i: nat :: answers'.checks(i).Some?) ==>
              Succeeds(ChecksReport(failFast, Some(pr'), policy, kind, answers'))
  {
    ConditionsSpec(failFast, pr, policy, kind, answers);
    ConditionsSpec(failFast, pr', policy, kind, answers');
    ChecksSpec(failFast, pr, policy, kind, answers);
    ChecksSpec(failFast, pr', policy, kind, answers');
    ConditionsMonotone(policy, pr, pr', answers, answers');
    ChecksMonotone(failFast, policy, pr, pr', answers, answers');
  }

  lemma ConditionsMonotone(policy: Policy, pr: PullRequest, pr': PullRequest, answers: Answers, answers': Answers)
    requires NoFewerLabels(pr, pr') && NoLessEvidence(answers, answers')
    ensures ConditionsMet(pr, policy, answers) ==> ConditionsMet(pr', policy, answers')
  {
    if ConditionsMet(pr, policy, answers) {
      var i: nat :| ConditionsMetAt(pr, policy, answers, i);
      assert RuleAt(policy, pr', i) == RuleAt(policy, pr, i);
      AgeMonotone(RuleAt(policy, pr, i).value.age, pr.createdAt, answers.now(i + 1), answers'.now(i + 1));
      assert ConditionsMetAt(pr', policy, answers', i);
    }
  }

  lemma ChecksMonotone(failFast: bool, policy: Policy, pr: PullRequest, pr': PullRequest, answers: Answers,
                       answers': Answers)
    requires NoFewerLabels(pr, pr') && NoLessEvidence(answers, answers')
    ensures ChecksMet(failFast, pr, policy, answers) && (failFast ==> forall i: nat :: answers'.checks(i).Some?) ==>
              ChecksMet(failFast, pr', policy, answers')
  {
    if ChecksMet(failFast, pr, policy, answers) && (failFast ==> forall i: nat :: answers'.checks(i).Some?) {
      CommentsMonotone(policy.comments, answers.comments(0), answers'.comments(0));
      if Selected(policy.rules, pr.headRef) != [] {
        var i: nat :| ChecksPassAt(failFast, pr, policy, answers, i);
        forall j | 0 <= j < i ensures !ChecksCrashAt(failFast, pr', policy, answers', j) {
          assert !ChecksCrashAt(failFast, pr, policy, answers, j);
          assert RuleAt(policy, pr', j) == RuleAt(policy, pr, j);
        }
        assert RuleAt(policy, pr', i) == RuleAt(policy, pr, i);
        var rule := RuleAt(policy, pr, i).value;
        CommentsMonotone(rule.comments, answers.comments(i + 1), answers'.comments(i + 1));
        StatusesMonotone(rule.requiredStatuses, answers.checks(i + 1), answers'.checks(i + 1));
        assert ChecksPassAt(failFast, pr', policy, answers', i);
      }
    }
  }
}
