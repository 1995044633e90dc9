/**
 The validator's two gates (pkg/validator/validators.go): conditions on author,
 labels and age, and comments and checks. Each looks at the whole configuration
 and at the selected branch rules, of which one must pass.
 */
module Gates {
  import opened Results
  import opened Rules
  import opened Validators
  import opened GitHub

  /** What the configuration demands, apart from where it is stored. */
  datatype Policy = Policy(
    labels: seq<string>,
    authors: seq<string>,
    comments: seq<Comment>,
    rules: map<string, Rule>)

  ghost function PolicyOf(include_: Include): Policy {
    Policy(include_.labels, include_.authors, include_.comments, RulesOf(include_))
  }

  /** What GitHub and the clock answer while a gate runs: stage 0 is the check of
      the whole configuration and stage i + 1 that of selected rule i. */
  datatype Answers = Answers(comments: nat -> CommentsAnswer, checks: nat -> ChecksAnswer, now: nat -> int)

  datatype Report = Crash | Report(results: seq<ValidationResult>, success: bool)

  // ---------- the validations of each gate ----------

  function ConditionsOfAll(pr: PullRequest, policy: Policy, kind: Kind): seq<Validation> {
    [ForAuthors(pr.owner, policy.authors, kind, Whole), ForLabels(pr.labels, policy.labels, kind, Whole)]
  }

  function ConditionsOfRule(pr: PullRequest, key: string, rule: Rule, kind: Kind, now: int): seq<Validation> {
    var scope := OfRule(key, rule.prefix);
    [ForAuthors(pr.owner, rule.authors, kind, scope), ForLabels(pr.labels, rule.labels, kind, scope),
     ForAge(rule.age, pr.createdAt, now, kind, scope)]
  }

  function ChecksOfAll(ccomments: seq<Comment>, kind: Kind, comments: CommentsAnswer): seq<Validation> {
    [ForComments(comments, ccomments, kind, Whole)]
  }

  function ChecksOfRule(key: string, rule: Rule, kind: Kind, comments: CommentsAnswer, checks: ChecksAnswer)
    : seq<Validation>
  {
    var scope := OfRule(key, rule.prefix);
    [ForComments(comments, rule.comments, kind, scope), ForRequiredStatuses(checks, rule.requiredStatuses, scope)]
  }

  // ---------- what a gate reports ----------

  function Cut(failFast: bool, found: seq<ValidationResult>): seq<ValidationResult> {
    if failFast then Head(found) else found
  }

  /** What a list of validations reports; `None` when it crashes. In fail-fast mode the
      first finding ends it. */
  function Gather(failFast: bool, vals: seq<Validation>): Option<seq<ValidationResult>> {
    if vals == [] then Some([])
    else
      var n := |vals| - 1;
      match Gather(failFast, vals[..n])
      case None => None
      case Some(before) =>
        if failFast && before != [] then Some(before)
        else if Breaks(vals[n]) then None
        else Some(before + Cut(failFast, Found(vals[n])))
  }

  function Flat(lists: seq<seq<ValidationResult>>): seq<ValidationResult> {
    if lists == [] then [] else Flat(lists[..|lists| - 1]) + lists[|lists| - 1]
  }

  /** The first rule at or after `i` that passes or crashes. */
  function Settling(perRule: seq<Option<seq<ValidationResult>>>, i: nat): (r: nat)
    requires i <= |perRule|
    ensures i <= r <= |perRule| && (r < |perRule| ==> perRule[r].None? || perRule[r] == Some([]))
    ensures forall j | i <= j < r :: perRule[j].Some? && perRule[j] != Some([])
    decreases |perRule| - i
  {
    if i == |perRule| || perRule[i].None? || perRule[i] == Some([]) then i else Settling(perRule, i + 1)
  }

  function Values<T>(xs: seq<Option<T>>): seq<T>
    requires forall i | 0 <= i < |xs| :: xs[i].Some?
  {
    seq(|xs|, i requires 0 <= i < |xs| => xs[i].value)
  }

  /** The report from what the whole configuration and each rule report; `noRule` is
      what the gate adds when no rule is selected. */
  function Judged(failFast: bool, whole: Option<seq<ValidationResult>>, noRule: seq<ValidationResult>,
                  perRule: seq<Option<seq<ValidationResult>>>): Report
  {
    match whole
    case None => Crash
    case Some(w) =>
      if failFast && w != [] then Report(w, false)
      else if perRule == [] then Report(w + noRule, w + noRule == [])
      else
        var i := Settling(perRule, 0);
        if i < |perRule| && perRule[i].None? then Crash
        else
          var results := w + if i < |perRule| then [] else Flat(Values(perRule));
          Report(results, results == [])
  }

  const NO_BRANCH := [ValidationResult(Whole, BranchReason, BranchNotFound)]

  // What each selected rule reports; `None` for a nil rule and for one that crashes.

  function ConditionsFor(failFast: bool, pr: PullRequest, policy: Policy, keys: seq<Option<string>>, kind: Kind,
                         answers: Answers): seq<Option<seq<ValidationResult>>>
  {
    if keys == [] then []
    else
      var n := |keys| - 1;
      ConditionsFor(failFast, pr, policy, keys[..n], kind, answers) +
      [match keys[n]
       case Some(k) =>
         if k in policy.rules
         then Gather(failFast, ConditionsOfRule(pr, k, policy.rules[k], kind, answers.now(n + 1))) else None
       case None => None]
  }

  function ChecksFor(failFast: bool, policy: Policy, keys: seq<Option<string>>, kind: Kind, answers: Answers)
    : seq<Option<seq<ValidationResult>>>
  {
    if keys == [] then []
    else
      var n := |keys| - 1;
      ChecksFor(failFast, policy, keys[..n], kind, answers) +
      [match keys[n]
       case Some(k) =>
         if k in policy.rules
         then Gather(failFast, ChecksOfRule(k, policy.rules[k], kind, answers.comments(n + 1), answers.checks(n + 1)))
         else None
       case None => None]
  }

  lemma {:induction false} ConditionsLength(failFast: bool, pr: PullRequest, policy: Policy, keys: seq<Option<string>>,
                                            kind: Kind, answers: Answers)
    ensures |ConditionsFor(failFast, pr, policy, keys, kind, answers)| == |keys|
  {
    if keys != [] {
      ConditionsLength(failFast, pr, policy, keys[..|keys| - 1], kind, answers);
    }
  }

  lemma {:induction false} ConditionsAt(failFast: bool, pr: PullRequest, policy: Policy, keys: seq<Option<string>>,
                                        kind: Kind, answers: Answers, i: nat)
    requires i < |keys|
    ensures |ConditionsFor(failFast, pr, policy, keys, kind, answers)| == |keys|
    ensures ConditionsFor(failFast, pr, policy, keys, kind, answers)[i] ==
            if keys[i].Some? && keys[i].value in policy.rules
            then Gather(failFast,
                        ConditionsOfRule(pr, keys[i].value, policy.rules[keys[i].value], kind, answers.now(i + 1)))
            else None
  {
    var n := |keys| - 1;
    ConditionsLength(failFast, pr, policy, keys[..n], kind, answers);
    if i < n {
      ConditionsAt(failFast, pr, policy, keys[..n], kind, answers, i);
    }
  }

  lemma {:induction false} ChecksLength(failFast: bool, policy: Policy, keys: seq<Option<string>>, kind: Kind,
                                        answers: Answers)
    ensures |ChecksFor(failFast, policy, keys, kind, answers)| == |keys|
  {
    if keys != [] {
      ChecksLength(failFast, policy, keys[..|keys| - 1], kind, answers);
    }
  }

  lemma {:induction false} ChecksAt(failFast: bool, policy: Policy, keys: seq<Option<string>>, kind: Kind,
                                    answers: Answers, i: nat)
    requires i < |keys|
    ensures |ChecksFor(failFast, policy, keys, kind, answers)| == |keys|
    ensures ChecksFor(failFast, policy, keys, kind, answers)[i] ==
            if keys[i].Some? && keys[i].value in policy.rules
            then Gather(failFast, ChecksOfRule(keys[i].value, policy.rules[keys[i].value], kind,
                                               answers.comments(i + 1), answers.checks(i + 1)))
            else None
  {
    var n := |keys| - 1;
    ChecksLength(failFast, policy, keys[..n], kind, answers);
    if i < n {
      ChecksAt(failFast, policy, keys[..n], kind, answers, i);
    }
  }

  ghost function ConditionsPerRule(failFast: bool, pr: PullRequest, policy: Policy, kind: Kind, answers: Answers)
    : seq<Option<seq<ValidationResult>>>
  {
    ConditionsFor(failFast, pr, policy, Selected(policy.rules, pr.headRef), kind, answers)
  }

  ghost function ChecksPerRule(failFast: bool, pr: PullRequest, policy: Policy, kind: Kind, answers: Answers)
    : seq<Option<seq<ValidationResult>>>
  {
    ChecksFor(failFast, policy, Selected(policy.rules, pr.headRef), kind, answers)
  }

  ghost function ConditionsReport(failFast: bool, pr: Option<PullRequest>, policy: Policy, kind: Kind, answers: Answers)
    : Report
  {
    match pr
    case None => Report([], false)
    case Some(pr) =>
      Judged(failFast, Gather(failFast, ConditionsOfAll(pr, policy, kind)), NO_BRANCH,
             ConditionsPerRule(failFast, pr, policy, kind, answers))
  }

  ghost function ChecksReport(failFast: bool, pr: Option<PullRequest>, policy: Policy, kind: Kind, answers: Answers)
    : Report
  {
    match pr
    case None => Report([ValidationResult(Whole, PrReason, NoPullRequest)], false)
    case Some(pr) =>
      Judged(failFast, Gather(failFast, ChecksOfAll(policy.comments, kind, answers.comments(0))), [],
             ChecksPerRule(failFast, pr, policy, kind, answers))
  }

  // ---------- the gates as the source runs them ----------

  /** Finds at most one thing wrong. */
  predicate Short(v: Validation) {
    v.ForAuthors? || v.ForLabels? || v.ForAge?
  }

  method RunValidation(v: Validation, results: ValidationResults, failFast: bool) returns (stop: Option<bool>)
    requires results.FailFast == failFast || Short(v)
    modifies results
    ensures stop.None? <==> Breaks(v)
    ensures stop.Some? ==>
              && results.Results == old(results.Results) + Cut(failFast, Found(v))
              && results.Success == (old(results.Success) && (v.scope.Whole? || Found(v) == []))
              && (failFast ==> (stop.value <==> Found(v) != []))
  {
    stop := Validate(v, results);
  }

  /** A crash, or in fail-fast mode a finding, settles what the list reports. */
  lemma {:induction false} GatherSettled(failFast: bool, vals: seq<Validation>, i: nat)
    requires i <= |vals|
    requires Gather(failFast, vals[..i]).None? || (failFast && Gather(failFast, vals[..i]).value != [])
    ensures Gather(failFast, vals) == Gather(failFast, vals[..i])
  {
    var n := |vals| - 1;
    if i <= n {
      assert vals[..n][..i] == vals[..i];
      GatherSettled(failFast, vals[..n], i);
    } else {
      assert vals[..i] == vals;
    }
  }

  lemma GatherSnoc(failFast: bool, vals: seq<Validation>, i: nat)
    requires i < |vals| && Gather(failFast, vals[..i]).Some?
    requires failFast ==> Gather(failFast, vals[..i]) == Some([])
    ensures Gather(failFast, vals[..i + 1]) ==
            if Breaks(vals[i]) then None else Some(Gather(failFast, vals[..i]).value + Cut(failFast, Found(vals[i])))
  {
    assert vals[..i + 1][..i] == vals[..i];
  }

  /** What the results hold after a round that reported `found`, after `done`. */
  lemma RoundHolds(was: seq<ValidationResult>, done: seq<ValidationResult>, found: seq<ValidationResult>)
    ensures was + done + found == was + (done + found)
  {
  }

  /** The loop over a list of validations; `None` when it crashes. */
  method RunValidations(vals: seq<Validation>, results: ValidationResults, failFast: bool, ghost scope: Scope)
    returns (stopped: Option<bool>)
    requires forall i | 0 <= i < |vals| :: vals[i].scope == scope && (results.FailFast == failFast || Short(vals[i]))
    modifies results
    ensures stopped.None? <==> Gather(failFast, vals).None?
    ensures stopped.Some? ==>
              var found := Gather(failFast, vals).value;
              && results.Results == old(results.Results) + found
              && results.Success == (old(results.Success) && (scope.Whole? || found == []))
              && (stopped.value <==> failFast && found != [])
  {
    ghost var found: seq<ValidationResult> := [];
    for i := 0 to |vals|
      invariant Gather(failFast, vals[..i]) == Some(found)
      invariant results.Results == old(results.Results) + found
      invariant results.Success == (old(results.Success) && (scope.Whole? || found == []))
      invariant failFast ==> found == []
    {
      GatherSnoc(failFast, vals, i);
      RoundHolds(old(results.Results), found, Cut(failFast, Found(vals[i])));
      var stop := RunValidation(vals[i], results, failFast);
      if stop.None? {
        GatherSettled(failFast, vals, i + 1);
        return None;
      }
      if stop.value {
        if failFast {
          GatherSettled(failFast, vals, i + 1);
          return Some(true);
        }
      }
      found := found + Cut(failFast, Found(vals[i]));
    }
    assert vals[..|vals|] == vals;
    return Some(false);
  }

  method AppendAll(results: ValidationResults, branchResults: seq<seq<ValidationResult>>)
    modifies results
    ensures results.Results == old(results.Results) + Flat(branchResults)
  {
    for i := 0 to |branchResults|
      invariant results.Results == old(results.Results) + Flat(branchResults[..i])
    {
      assert branchResults[..i + 1][..i] == branchResults[..i];
      results.Results := results.Results + branchResults[i];
    }
    assert branchResults[..|branchResults|] == branchResults;
  }

  /** What the first rules report, none of which passes. */
  ghost predicate AllFail(perRule: seq<Option<seq<ValidationResult>>>, branchResults: seq<seq<ValidationResult>>) {
    |branchResults| <= |perRule| && forall i | 0 <= i < |branchResults| ::
      perRule[i] == Some(branchResults[i]) && branchResults[i] != []
  }

  /** How the loop over the rules ends: with a crash, or with whether a rule passed. */
  ghost predicate RulesEnd(perRule: seq<Option<seq<ValidationResult>>>, end: Option<bool>,
                           branchResults: seq<seq<ValidationResult>>)
  {
    && AllFail(perRule, branchResults)
    && match end
       case None => |branchResults| < |perRule| && perRule[|branchResults|].None?
       case Some(true) => |branchResults| < |perRule| && perRule[|branchResults|] == Some([])
       case Some(false) => |branchResults| == |perRule|
  }

  /** The body of the loop over the rules: a fresh result object for one rule. */
  method RunRule(vals: seq<Validation>, kind: Kind, failFast: bool, resultsFailFast: bool, ghost scope: Scope)
    returns (r: Option<(bool, seq<ValidationResult>)>)
    requires scope.OfRule?
    requires forall i | 0 <= i < |vals| :: vals[i].scope == scope && (resultsFailFast == failFast || Short(vals[i]))
    ensures RoundIs(Gather(failFast, vals), r)
  {
    var branchResult := new ValidationResults(true, kind, resultsFailFast);
    var stopped := RunValidations(vals, branchResult, failFast, scope);
    if stopped.None? {
      return None;
    }
    assert branchResult.Results == Gather(failFast, vals).value;
    return Some((!stopped.value && branchResult.Success, branchResult.Results));
  }

  ghost predicate RoundIs(found: Option<seq<ValidationResult>>, r: Option<(bool, seq<ValidationResult>)>) {
    match found
    case None => r.None?
    case Some(found) => r == Some((found == [], found))
  }

  lemma RuleJudged(perRule: seq<Option<seq<ValidationResult>>>, branchResults: seq<seq<ValidationResult>>,
                   r: Option<(bool, seq<ValidationResult>)>)
    requires AllFail(perRule, branchResults) && |branchResults| < |perRule|
    requires RoundIs(perRule[|branchResults|], r)
    ensures match r
            case None => RulesEnd(perRule, None, branchResults)
            case Some((true, _)) => RulesEnd(perRule, Some(true), branchResults)
            case Some((false, results)) => AllFail(perRule, branchResults + [results])
  {
  }

  /** One round: nothing for a nil rule, else whether the rule passes and its results. */
  method RoundConditions(pr: PullRequest, include_: Include, found: seq<Option<Branch>>, i: nat, kind: Kind,
                         failFast: bool, answers: Answers, ghost perRule: seq<Option<seq<ValidationResult>>>)
    returns (r: Option<(bool, seq<ValidationResult>)>)
    requires AreRules(include_, Selected(RulesOf(include_), pr.headRef), found) && i < |found|
    requires forall k | k in include_.branches :: include_.branches[k].Key == k
    requires perRule == ConditionsPerRule(failFast, pr, PolicyOf(include_), kind, answers)
    ensures |perRule| == |found| && RoundIs(perRule[i], r)
  {
    ConditionsAt(failFast, pr, PolicyOf(include_), Selected(RulesOf(include_), pr.headRef), kind, answers, i);
    assert IsRule(include_, Selected(RulesOf(include_), pr.headRef)[i], found[i]);
    if found[i].None? {
      return None;
    }
    var branch := found[i].value;
    var vals := ConditionsOfRule(pr, branch.Key, branch.rule, kind, answers.now(i + 1));
    r := RunRule(vals, kind, failFast, false, OfRule(branch.Key, branch.rule.prefix));
  }

  method RunConditions(pr: PullRequest, include_: Include, found: seq<Option<Branch>>, kind: Kind, failFast: bool,
                       answers: Answers, ghost perRule: seq<Option<seq<ValidationResult>>>)
    returns (branchPassed: Option<bool>, branchResults: seq<seq<ValidationResult>>)
    requires AreRules(include_, Selected(RulesOf(include_), pr.headRef), found) && |perRule| == |found|
    requires forall k | k in include_.branches :: include_.branches[k].Key == k
    requires perRule == ConditionsPerRule(failFast, pr, PolicyOf(include_), kind, answers)
    ensures RulesEnd(perRule, branchPassed, branchResults)
  {
    branchResults := [];
    for i := 0 to |found|
      invariant |branchResults| == i && AllFail(perRule, branchResults)
    {
      var round := RoundConditions(pr, include_, found, i, kind, failFast, answers, perRule);
      RuleJudged(perRule, branchResults, round);
      match round {
        case None => return None, branchResults;
        case Some((passed, results)) =>
          if passed {
            return Some(true), branchResults;
          }
          branchResults := branchResults + [results];
      }
    }
    return Some(false), branchResults;
  }

  /** One round: nothing for a nil rule or a crash, else whether the rule passes and its results. */
  method RoundChecks(pr: PullRequest, include_: Include, found: seq<Option<Branch>>, i: nat, kind: Kind,
                     failFast: bool, answers: Answers, ghost perRule: seq<Option<seq<ValidationResult>>>)
    returns (r: Option<(bool, seq<ValidationResult>)>)
    requires AreRules(include_, Selected(RulesOf(include_), pr.headRef), found) && i < |found|
    requires forall k | k in include_.branches :: include_.branches[k].Key == k
    requires perRule == ChecksPerRule(failFast, pr, PolicyOf(include_), kind, answers)
    ensures |perRule| == |found| && RoundIs(perRule[i], r)
  {
    ChecksAt(failFast, PolicyOf(include_), Selected(RulesOf(include_), pr.headRef), kind, answers, i);
    assert IsRule(include_, Selected(RulesOf(include_), pr.headRef)[i], found[i]);
    if found[i].None? {
      return None;
    }
    var branch := found[i].value;
    var vals := ChecksOfRule(branch.Key, branch.rule, kind, answers.comments(i + 1), answers.checks(i + 1));
    r := RunRule(vals, kind, failFast, failFast, OfRule(branch.Key, branch.rule.prefix));
  }

  method RunChecks(pr: PullRequest, include_: Include, found: seq<Option<Branch>>, kind: Kind, failFast: bool,
                   answers: Answers, ghost perRule: seq<Option<seq<ValidationResult>>>)
    returns (branchPassed: Option<bool>, branchResults: seq<seq<ValidationResult>>)
    requires AreRules(include_, Selected(RulesOf(include_), pr.headRef), found) && |perRule| == |found|
    requires forall k | k in include_.branches :: include_.branches[k].Key == k
    requires perRule == ChecksPerRule(failFast, pr, PolicyOf(include_), kind, answers)
    ensures RulesEnd(perRule, branchPassed, branchResults)
  {
    branchResults := [];
    for i := 0 to |found|
      invariant |branchResults| == i && AllFail(perRule, branchResults)
    {
      var round := RoundChecks(pr, include_, found, i, kind, failFast, answers, perRule);
      RuleJudged(perRule, branchResults, round);
      match round {
        case None => return None, branchResults;
        case Some((passed, results)) =>
          if passed {
            return Some(true), branchResults;
          }
          branchResults := branchResults + [results];
      }
    }
    return Some(false), branchResults;
  }

  /** The results object says what the report says; `None` is a crash. */
  ghost predicate Shows(r: Option<ValidationResults>, report: Report)
    reads if r.Some? then {r.value} else {}
  {
    match report
    case Crash => r.None?
    case Report(results, success) => r.Some? && r.value.Results == results && r.value.Success == success
  }

  lemma JudgedByEnd(failFast: bool, w: seq<ValidationResult>, noRule: seq<ValidationResult>,
                    perRule: seq<Option<seq<ValidationResult>>>, end: Option<bool>,
                    branchResults: seq<seq<ValidationResult>>)
    requires RulesEnd(perRule, end, branchResults) && perRule != [] && !(failFast && w != [])
    ensures var results := w + if end == Some(false) then Flat(branchResults) else [];
            Judged(failFast, Some(w), noRule, perRule) == if end.None? then Crash else Report(results, results == [])
  {
    var i := Settling(perRule, 0);
    assert i == |branchResults|;
    if end == Some(false) {
      assert Values(perRule) == branchResults;
    }
  }

  /** A nil rule is selected alone, and every other selected rule exists. */
  lemma NilRuleAlone(rules: map<string, Rule>, headRef: string)
    ensures None in Selected(rules, headRef) ==> |Selected(rules, headRef)| == 1
    ensures forall i | 0 <= i < |Selected(rules, headRef)| && Selected(rules, headRef)[i].Some? ::
              Selected(rules, headRef)[i].value in rules
  {
    if HasStrict(rules, headRef) {
      SelectedOne(rules, headRef);
    } else {
      SelectedAll(rules, headRef);
      var keys := MatchingOf(rules, Sorted(rules.Keys), headRef);
      forall i | 0 <= i < |keys| ensures keys[i] in rules {
        assert keys[i] in keys;
      }
    }
  }

  /** The end of both gates: collect the failing rules unless one passed. */
  method Conclude(results: ValidationResults, branchPassed: Option<bool>, branchResults: seq<seq<ValidationResult>>)
    returns (r: Option<ValidationResults>)
    modifies results
    ensures branchPassed.None? ==> r.None?
    ensures branchPassed.Some? ==>
              && r == Some(results)
              && results.Results ==
                 old(results.Results) + (if branchPassed == Some(false) then Flat(branchResults) else [])
              && (results.Success <==> results.Results == [])
  {
    match branchPassed {
      case None => return None;
      case Some(passed) =>
        if !passed {
          AppendAll(results, branchResults);
        }
    }
    results.SuccessResult();
    return Some(results);
  }

  /** The conditions gate once the whole configuration has been checked. */
  method FinishConditions(failFast: bool, pr: PullRequest, include_: Include, kind: Kind, answers: Answers,
                          stopped: bool, results: ValidationResults, ghost w: seq<ValidationResult>)
    returns (r: Option<ValidationResults>)
    requires Distinct(include_) && (stopped <==> failFast && w != [])
    requires results.Results == w && !results.Success
    modifies include_.branches.Values, results
    ensures Shows(r, Judged(failFast, Some(w), NO_BRANCH,
                           ConditionsPerRule(failFast, pr, PolicyOf(include_), kind, answers)))
    ensures r.Some? ==> r.value == results
  {
    if stopped {
      return Some(results);
    }
    ghost var perRule := ConditionsPerRule(failFast, pr, PolicyOf(include_), kind, answers);
    ConditionsLength(failFast, pr, PolicyOf(include_), Selected(RulesOf(include_), pr.headRef), kind, answers);
    var foundBranches := MatchedBranchConfig(include_, pr.headRef);
    if |foundBranches| <= 0 {
      results.AddResult(BranchReason, BranchNotFound);
      return Some(results);
    }
    var branchPassed, branchResults := RunConditions(pr, include_, foundBranches, kind, failFast, answers, perRule);
    JudgedByEnd(failFast, w, NO_BRANCH, perRule, branchPassed, branchResults);
    r := Conclude(results, branchPassed, branchResults);
  }

  method ValidateConditions(failFast: bool, pr: Option<PullRequest>, include_: Include, kind: Kind, answers: Answers)
    returns (r: Option<ValidationResults>)
    requires Distinct(include_)
    modifies include_.branches.Values
    ensures Shows(r, ConditionsReport(failFast, pr, PolicyOf(include_), kind, answers))
    ensures r.Some? ==> fresh(r.value) && r.value.Type == kind
  {
    var results := new ValidationResults(false, kind, false);
    if pr.None? {
      return Some(results);
    }
    var vals := [ForAuthors(pr.value.owner, include_.authors, kind, Whole),
                 ForLabels(pr.value.labels, include_.labels, kind, Whole)];
    assert vals == ConditionsOfAll(pr.value, PolicyOf(include_), kind);
    var stopped := RunValidations(vals, results, failFast, Whole);
    if stopped.None? {
      return None;
    }
    r := FinishConditions(failFast, pr.value, include_, kind, answers, stopped.value, results,
                          Gather(failFast, vals).value);
  }

  method FinishChecks(failFast: bool, pr: PullRequest, include_: Include, kind: Kind, answers: Answers,
                      stopped: bool, results: ValidationResults, ghost w: seq<ValidationResult>)
    returns (r: Option<ValidationResults>)
    requires Distinct(include_) && (stopped <==> failFast && w != [])
    requires results.Results == w && !results.Success
    modifies include_.branches.Values, results
    ensures Shows(r, Judged(failFast, Some(w), [], ChecksPerRule(failFast, pr, PolicyOf(include_), kind, answers)))
    ensures r.Some? ==> r.value == results
  {
    if stopped {
      return Some(results);
    }
    ghost var perRule := ChecksPerRule(failFast, pr, PolicyOf(include_), kind, answers);
    ChecksLength(failFast, PolicyOf(include_), Selected(RulesOf(include_), pr.headRef), kind, answers);
    var foundBranches := MatchedBranchConfig(include_, pr.headRef);
    var branchPassed := Some(true);
    var branchResults := [];
    if |foundBranches| > 0 {
      branchPassed, branchResults := RunChecks(pr, include_, foundBranches, kind, failFast, answers, perRule);
      JudgedByEnd(failFast, w, [], perRule, branchPassed, branchResults);
    }
    r := Conclude(results, branchPassed, branchResults);
  }

  method ValidateCommentsAndChecks(failFast: bool, pr: Option<PullRequest>, include_: Include, kind: Kind,
                                   answers: Answers)
    returns (r: Option<ValidationResults>)
    requires Distinct(include_)
    modifies include_.branches.Values
    ensures Shows(r, ChecksReport(failFast, pr, PolicyOf(include_), kind, answers))
    ensures r.Some? ==> fresh(r.value) && r.value.Type == kind
  {
    var results := new ValidationResults(false, kind, failFast);
    if pr.None? {
      results.AddResult(PrReason, NoPullRequest);
      return Some(results);
    }
    var vals := ChecksOfAll(include_.comments, kind, answers.comments(0));
    var stopped := RunValidations(vals, results, failFast, Whole);
    if stopped.None? {
      return None;
    }
    r := FinishChecks(failFast, pr.value, include_, kind, answers, stopped.value, results,
                      Gather(failFast, vals).value);
  }
}
