/**
 The single validations of a pull request (pkg/validator/validators): what each
 finds wrong, and how it reports that into a shared result object.
 */
module Validators {
  import opened Results
  import opened Rules
  import opened Statuses
  import Compare
  import Times

  /** The section of the configuration a gate checks. */
  datatype Kind = ForApprove | ForMerge

  datatype Reason = AuthorReason | LabelsReason | CommentsReason | StatusesReason | AgeReason | BranchReason | PrReason

  /** The message texts, without their formatting. */
  datatype Message =
    | AuthorNotApproved(kind: Kind)
    | LabelsDiffer(kind: Kind)
    | CommentsUnavailable
    | CommentsDiffer(kind: Kind)
    | StatusesUnavailable
    | StatusesMissing(names: seq<string>)
    | AgeUnknown(kind: Kind)
    | TooYoung(kind: Kind)
    | BranchNotFound
    | NoPullRequest

  /** What a finding is about: the whole configuration or one rule. */
  datatype Scope = Whole | OfRule(key: string, prefix: string)

  datatype ValidationResult = ValidationResult(scope: Scope, reason: Reason, message: Message)

  class ValidationResults {
    var Results: seq<ValidationResult>
    var Success: bool
    const Type: Kind
    const FailFast: bool

    constructor (success: bool, kind: Kind, failFast: bool)
      ensures Results == [] && Success == success && Type == kind && FailFast == failFast
    {
      Results, Success, Type, FailFast := [], success, kind, failFast;
    }

    method AddResult(reason: Reason, message: Message)
      modifies this
      ensures Results == old(Results) + [ValidationResult(Whole, reason, message)]
      ensures Success == old(Success)
    {
      Results := Results + [ValidationResult(Whole, reason, message)];
    }

    method AddBranchResult(key: string, branch: string, reason: Reason, message: Message)
      modifies this
      ensures Results == old(Results) + [ValidationResult(OfRule(key, branch), reason, message)]
      ensures !Success
    {
      Results := Results + [ValidationResult(OfRule(key, branch), reason, message)];
      Success := false;
    }

    method SuccessResult()
      modifies this
      ensures Results == old(Results) && (Success <==> Results == [])
    {
      if |Results| > 0 {
        Success := false;
      } else {
        Success := true;
      }
    }
  }

  type CommentsAnswer = Result<seq<string>, string>

  /** `None` when reading the statuses crashed. */
  type ChecksAnswer = Option<Result<seq<Status>, string>>

  /** The validations, with what they compare. Times are in nanoseconds. */
  datatype Validation =
    | ForAuthors(author: string, authors: seq<string>, kind: Kind, scope: Scope)
    | ForLabels(labels: seq<string>, clabels: seq<string>, kind: Kind, scope: Scope)
    | ForComments(comments: CommentsAnswer, ccomments: seq<Comment>, kind: Kind, scope: Scope)
    | ForRequiredStatuses(statuses: ChecksAnswer, cstatuses: seq<string>, scope: Scope)
    | ForAge(age: Option<int>, createdAt: Option<int>, now: int, kind: Kind, scope: Scope)

  predicate IsEnabled(v: Validation) {
    match v
    case ForAuthors(_, authors, _, _) => authors != []
    case ForLabels(_, clabels, _, _) => clabels != []
    case ForComments(_, ccomments, _, _) => ccomments != []
    case ForRequiredStatuses(_, cstatuses, _) => cstatuses != []
    case ForAge(age, _, _, _, _) => age.Some?
  }

  predicate Contains(text: string, part: string) {
    part <= text || (text != [] && Contains(text[1..], part))
  }

  lemma {:induction false} ContainsMeans(text: string, part: string)
    ensures Contains(text, part) <==> exists i | 0 <= i <= |text| :: StartsWith(text[i..], part)
  {
    assert text[0..] == text;
    PrefixMeans(text, part);
    if text != [] {
      ContainsMeans(text[1..], part);
      assert forall i | 0 <= i <= |text| - 1 :: text[1..][i..] == text[i + 1..];
      if i :| 0 <= i <= |text| - 1 && StartsWith(text[1..][i..], part) {
        assert text[i + 1..] == text[1..][i..];
      }
      if i :| 0 < i <= |text| && StartsWith(text[i..], part) {
        assert text[1..][i - 1..] == text[i..];
      }
    }
  }

  lemma CommentMatchesIs(body: string, comment: Comment)
    ensures CommentMatches(body, comment) <==> Suits(body, comment)
  {
    PrefixMeans(body, comment.title);
    ContainsMeans(body, comment.body);
  }

  predicate CommentMatches(body: string, comment: Comment) {
    comment.title <= body && Contains(body, comment.body)
  }

  /** Whole seconds since the epoch. */
  function Unix(t: int): int {
    t / Times.SECOND
  }

  const MIN64 := -0x8000_0000_0000_0000

  /** `-1 * d` in 64 bits. */
  function Negated(d: int): int {
    if d == MIN64 then MIN64 else -d
  }

  // ---------- what each validation demands ----------

  // An empty list, and an absent age, demand nothing.

  predicate AuthorOk(authors: seq<string>, owner: string) {
    authors == [] || owner in authors
  }

  ghost predicate LabelsOk(required: seq<string>, labels: seq<string>) {
    forall l | l in required :: l in labels
  }

  /** Second `k` since the epoch begins after `a` and not after `b`. */
  predicate SecondBetween(a: int, k: int, b: int) {
    a < k * 1_000_000_000 <= b
  }

  ghost predicate SecondsLie(a: int, b: int) {
    exists k :: SecondBetween(a, k, b)
  }

  /** A second begins after the creation and not after the age before now. The smallest
      64-bit number has no negative and counts as the age 2^63. */
  ghost predicate AgeOk(age: Option<int>, createdAt: Option<int>, now: int) {
    age.Some? ==>
      var least := if age.value == -0x8000_0000_0000_0000 then 0x8000_0000_0000_0000 else age.value;
      createdAt.Some? && SecondsLie(createdAt.value, now - least)
  }

  /** The body begins with the title of the required comment and contains its text. */
  ghost predicate Suits(body: string, c: Comment) {
    StartsWith(body, c.title) && exists i | 0 <= i <= |body| :: StartsWith(body[i..], c.body)
  }

  ghost predicate CommentsOk(required: seq<Comment>, answer: CommentsAnswer) {
    required == [] ||
    (answer.Ok? && forall c | c in required :: exists body | body in answer.value :: Suits(body, c))
  }

  predicate Known(answer: ChecksAnswer) {
    answer.Some? && answer.value.Ok?
  }

  ghost predicate StatusesOk(required: seq<string>, answer: ChecksAnswer) {
    required == [] ||
    (Known(answer) &&
     forall n | n in required :: exists s | s in answer.value.value :: s.name == n && Finished(s.state))
  }

  ghost predicate Passes(v: Validation) {
    match v
    case ForAuthors(author, authors, _, _) => AuthorOk(authors, author)
    case ForLabels(labels, clabels, _, _) => LabelsOk(clabels, labels)
    case ForComments(comments, ccomments, _, _) => CommentsOk(ccomments, comments)
    case ForRequiredStatuses(statuses, cstatuses, _) => StatusesOk(cstatuses, statuses)
    case ForAge(age, createdAt, now, _, _) => AgeOk(age, createdAt, now)
  }

  /** The validation crashes: it needs statuses, and reading them did. */
  predicate Breaks(v: Validation) {
    v.ForRequiredStatuses? && IsEnabled(v) && v.statuses.None?
  }

  // ---------- what each validation reports ----------

  predicate HasComment(bodies: seq<string>, comment: Comment) {
    bodies != [] && (CommentMatches(bodies[|bodies| - 1], comment) || HasComment(bodies[..|bodies| - 1], comment))
  }

  lemma {:induction false} HasCommentMeans(bodies: seq<string>, comment: Comment)
    ensures HasComment(bodies, comment) <==> exists body | body in bodies :: Suits(body, comment)
  {
    if bodies != [] {
      CommentMatchesIs(bodies[|bodies| - 1], comment);
      HasCommentMeans(bodies[..|bodies| - 1], comment);
      assert forall b :: b in bodies <==> b in bodies[..|bodies| - 1] || b == bodies[|bodies| - 1];
    }
  }

  function CommentFindings(bodies: seq<string>, ccomments: seq<Comment>, kind: Kind, scope: Scope)
    : seq<ValidationResult>
  {
    if ccomments == [] then []
    else
      var n := |ccomments| - 1;
      CommentFindings(bodies, ccomments[..n], kind, scope) +
      if HasComment(bodies, ccomments[n]) then [] else [ValidationResult(scope, CommentsReason, CommentsDiffer(kind))]
  }

  /** All that an enabled validation finds wrong, in order. */
  function Findings(v: Validation): seq<ValidationResult> {
    match v
    case ForAuthors(author, authors, kind, scope) =>
      if author in authors then [] else [ValidationResult(scope, AuthorReason, AuthorNotApproved(kind))]
    case ForLabels(labels, clabels, kind, scope) =>
      if Compare.Missing(labels, clabels) == [] then [] else [ValidationResult(scope, LabelsReason, LabelsDiffer(kind))]
    case ForComments(comments, ccomments, kind, scope) =>
      if comments.Err? then
        [ValidationResult(scope, CommentsReason, CommentsUnavailable)] + CommentFindings([], ccomments, kind, scope)
      else CommentFindings(comments.value, ccomments, kind, scope)
    case ForRequiredStatuses(statuses, cstatuses, scope) =>
      var finished := if Known(statuses) then FinishedNames(statuses.value.value) else [];
      var missing := Compare.Missing(finished, cstatuses);
      (if statuses.Some? && statuses.value.Err? then [ValidationResult(scope, StatusesReason, StatusesUnavailable)]
       else []) +
      if missing != [] then [ValidationResult(scope, StatusesReason, StatusesMissing(missing))] else []
    case ForAge(age, createdAt, now, kind, scope) =>
      if createdAt.None? then [ValidationResult(scope, AgeReason, AgeUnknown(kind))]
      else if age.Some? && Unix(now + Negated(age.value)) <= Unix(createdAt.value) then
        [ValidationResult(scope, AgeReason, TooYoung(kind))]
      else []
  }

  function Found(v: Validation): seq<ValidationResult> {
    if IsEnabled(v) then Findings(v) else []
  }

  function Head<T>(xs: seq<T>): seq<T> {
    if xs == [] then [] else [xs[0]]
  }

  lemma {:induction false} CommentFindingsMean(bodies: seq<string>, ccomments: seq<Comment>, kind: Kind, scope: Scope)
    ensures CommentFindings(bodies, ccomments, kind, scope) == [] <==>
            forall c | c in ccomments :: HasComment(bodies, c)
  {
    if ccomments != [] {
      var n := |ccomments| - 1;
      CommentFindingsMean(bodies, ccomments[..n], kind, scope);
      assert |CommentFindings(bodies, ccomments, kind, scope)| ==
             |CommentFindings(bodies, ccomments[..n], kind, scope)| + if HasComment(bodies, ccomments[n]) then 0 else 1;
      assert forall c :: c in ccomments <==> c in ccomments[..n] || c == ccomments[n];
    }
  }

  /** Comparing seconds is looking for one that begins in between. */
  lemma SecondsApart(a: int, b: int)
    ensures Unix(a) < Unix(b) <==> SecondsLie(a, b)
  {
    if Unix(a) < Unix(b) {
      assert SecondBetween(a, Unix(b), b);
    }
  }

  /** How old a pull request is that the age validation lets pass: older than required,
      and if it is a second older, it passes. */
  lemma AgeMeans(d: int, c: int, now: int, kind: Kind, scope: Scope)
    requires 0 <= d <= 0x7FFF_FFFF_FFFF_FFFF
    ensures Found(ForAge(Some(d), Some(c), now, kind, scope)) == [] ==> c + d < now
    ensures c + d + 1_000_000_000 <= now ==> Found(ForAge(Some(d), Some(c), now, kind, scope)) == []
  {
    SecondsApart(c, now - d);
    if c + d + 1_000_000_000 <= now {
      assert SecondBetween(c, c / 1_000_000_000 + 1, now - d);
    }
  }

  /** A validation that does not crash finds nothing wrong exactly when its requirement
      is met. */
  lemma FoundMeans(v: Validation)
    requires !Breaks(v)
    ensures Found(v) == [] <==> Passes(v)
  {
    match v
    case ForLabels(labels, clabels, _, _) =>
      Compare.MissingMeans(labels, clabels);
    case ForComments(comments, ccomments, kind, scope) =>
      if comments.Ok? {
        CommentFindingsMean(comments.value, ccomments, kind, scope);
        forall c {
          HasCommentMeans(comments.value, c);
        }
      }
    case ForRequiredStatuses(statuses, cstatuses, _) =>
      if Known(statuses) {
        Compare.MissingMeans(FinishedNames(statuses.value.value), cstatuses);
        FinishedNamesMeans(statuses.value.value);
      }
    case ForAge(age, createdAt, now, _, _) =>
      if age.Some? && createdAt.Some? {
        SecondsApart(createdAt.value, now + Negated(age.value));
      }
    case _ =>
  }

  ghost predicate Unmatched(bodies: seq<string>, c: Comment) {
    forall body | body in bodies :: !Suits(body, c)
  }

  /** The positions of the required comments that none of the bodies suits. */
  ghost function Misses(bodies: seq<string>, ccomments: seq<Comment>): set<int> {
    set i | 0 <= i < |ccomments| && Unmatched(bodies, ccomments[i])
  }

  lemma MissesSnoc(bodies: seq<string>, ccomments: seq<Comment>)
    requires ccomments != []
    ensures var n := |ccomments| - 1;
            |Misses(bodies, ccomments)| ==
            |Misses(bodies, ccomments[..n])| + if Unmatched(bodies, ccomments[n]) then 1 else 0
  {
    var n := |ccomments| - 1;
    assert Misses(bodies, ccomments) ==
           Misses(bodies, ccomments[..n]) + if Unmatched(bodies, ccomments[n]) then {n} else {};
  }

  /** One finding for each required comment that is not matched. */
  lemma {:induction false} CommentFindingsCount(bodies: seq<string>, ccomments: seq<Comment>, kind: Kind, scope: Scope)
    ensures |CommentFindings(bodies, ccomments, kind, scope)| == |Misses(bodies, ccomments)|
  {
    if ccomments != [] {
      var n := |ccomments| - 1;
      CommentFindingsCount(bodies, ccomments[..n], kind, scope);
      HasCommentMeans(bodies, ccomments[n]);
      MissesSnoc(bodies, ccomments);
    }
  }

  lemma {:induction false} CommentFindingsAre(bodies: seq<string>, ccomments: seq<Comment>, kind: Kind, scope: Scope)
    ensures forall r | r in CommentFindings(bodies, ccomments, kind, scope) ::
              r == ValidationResult(scope, CommentsReason, CommentsDiffer(kind))
  {
    if ccomments != [] {
      CommentFindingsAre(bodies, ccomments[..|ccomments| - 1], kind, scope);
    }
  }

  /** These are the required names that no finished status has. */
  ghost predicate AreMissing(names: seq<string>, required: seq<string>, answer: ChecksAnswer) {
    forall n :: n in names <==>
      n in required && !(Known(answer) && exists s | s in answer.value.value :: s.name == n && Finished(s.state))
  }

  /** What a validation says when it finds something wrong. */
  ghost predicate Says(v: Validation, r: ValidationResult) {
    && r.scope == v.scope
    && match v
       case ForAuthors(author, authors, kind, _) =>
         !AuthorOk(authors, author) && r.reason == AuthorReason && r.message == AuthorNotApproved(kind)
       case ForLabels(labels, clabels, kind, _) =>
         !LabelsOk(clabels, labels) && r.reason == LabelsReason && r.message == LabelsDiffer(kind)
       case ForComments(comments, ccomments, kind, _) =>
         && r.reason == CommentsReason
         && (|| (r.message == CommentsUnavailable && comments.Err? && ccomments != [])
             || (r.message == CommentsDiffer(kind) && !CommentsOk(ccomments, comments)))
       case ForRequiredStatuses(statuses, cstatuses, _) =>
         && r.reason == StatusesReason && !StatusesOk(cstatuses, statuses)
         && (|| (r.message == StatusesUnavailable && statuses.Some? && statuses.value.Err?)
             || (r.message.StatusesMissing? && AreMissing(r.message.names, cstatuses, statuses)))
       case ForAge(age, createdAt, now, kind, _) =>
         && r.reason == AgeReason && !AgeOk(age, createdAt, now)
         && r.message == if createdAt.None? then AgeUnknown(kind) else TooYoung(kind)
  }

  /** Whatever a validation reports, it says about its own scope and for its own reason. */
  lemma FoundSays(v: Validation, r: ValidationResult)
    requires !Breaks(v) && r in Found(v)
    ensures Says(v, r)
  {
    FoundMeans(v);
    match v
    case ForComments(comments, ccomments, kind, scope) =>
      CommentFindingsAre(if comments.Ok? then comments.value else [], ccomments, kind, scope);
    case ForRequiredStatuses(statuses, cstatuses, _) =>
      var stats := if Known(statuses) then statuses.value.value else [];
      Compare.MissingMeans(FinishedNames(stats), cstatuses);
      FinishedNamesMeans(stats);
    case _ =>
  }

  /** That the comments or statuses are unavailable is said first. */
  lemma UnavailableFirst(v: Validation)
    requires IsEnabled(v)
    ensures v.ForComments? && v.comments.Err? ==>
              Head(Found(v)) == [ValidationResult(v.scope, CommentsReason, CommentsUnavailable)]
    ensures v.ForRequiredStatuses? && v.statuses.Some? && v.statuses.value.Err? ==>
              Head(Found(v)) == [ValidationResult(v.scope, StatusesReason, StatusesUnavailable)]
  {
  }

  // ---------- the validations as the source runs them ----------

  method Add(results: ValidationResults, scope: Scope, reason: Reason, message: Message)
    modifies results
    ensures results.Results == old(results.Results) + [ValidationResult(scope, reason, message)]
    ensures results.Success == (old(results.Success) && scope.Whole?)
  {
    match scope
    case Whole => results.AddResult(reason, message);
    case OfRule(key, prefix) => results.AddBranchResult(key, prefix, reason, message);
  }

  /** The inner loop over the comments of the pull request. */
  method FindComment(prComments: seq<string>, c: Comment) returns (found: bool)
    ensures found <==> HasComment(prComments, c)
  {
    found := false;
    for j := 0 to |prComments|
      invariant found <==> HasComment(prComments[..j], c)
    {
      assert prComments[..j + 1][..j] == prComments[..j];
      if c.title <= prComments[j] && Contains(prComments[j], c.body) {
        found := true;
      }
    }
    assert prComments[..|prComments|] == prComments;
  }

  lemma FindingsSnoc(bodies: seq<string>, ccomments: seq<Comment>, i: nat, kind: Kind, scope: Scope)
    requires i < |ccomments|
    ensures CommentFindings(bodies, ccomments[..i + 1], kind, scope) ==
            CommentFindings(bodies, ccomments[..i], kind, scope) +
            if HasComment(bodies, ccomments[i]) then []
            else [ValidationResult(scope, CommentsReason, CommentsDiffer(kind))]
  {
    assert ccomments[..i + 1][..i] == ccomments[..i];
  }

  /** The first missing comment is the first finding. */
  lemma FindingsStart(bodies: seq<string>, ccomments: seq<Comment>, i: nat, kind: Kind, scope: Scope)
    requires i < |ccomments| && !HasComment(bodies, ccomments[i])
    requires CommentFindings(bodies, ccomments[..i], kind, scope) == []
    ensures Head(CommentFindings(bodies, ccomments, kind, scope)) ==
            [ValidationResult(scope, CommentsReason, CommentsDiffer(kind))]
  {
    FindingsSnoc(bodies, ccomments, i, kind, scope);
    FindingsBegin(bodies, ccomments, i + 1, kind, scope);
  }

  /** The outer loop over the required comments. */
  method MatchComments(prComments: seq<string>, ccomments: seq<Comment>, kind: Kind, scope: Scope,
                       results: ValidationResults)
    returns (stop: bool)
    modifies results
    ensures var found := CommentFindings(prComments, ccomments, kind, scope);
            && results.Results == old(results.Results) + (if results.FailFast then Head(found) else found)
            && results.Success == (old(results.Success) && (scope.Whole? || found == []))
            && (stop <==> results.FailFast && found != [])
  {
    for i := 0 to |ccomments|
      invariant results.Results == old(results.Results) + CommentFindings(prComments, ccomments[..i], kind, scope)
      invariant results.Success ==
                (old(results.Success)
                 && (scope.Whole? || CommentFindings(prComments, ccomments[..i], kind, scope) == []))
      invariant results.FailFast ==> CommentFindings(prComments, ccomments[..i], kind, scope) == []
    {
      FindingsSnoc(prComments, ccomments, i, kind, scope);
      var found := FindComment(prComments, ccomments[i]);
      if !found {
        Add(results, scope, CommentsReason, CommentsDiffer(kind));
        if results.FailFast {
          FindingsStart(prComments, ccomments, i, kind, scope);
          return true;
        }
      }
    }
    assert ccomments[..|ccomments|] == ccomments;
    return false;
  }

  method ValidateComments(v: Validation, results: ValidationResults) returns (stop: bool)
    requires v.ForComments?
    modifies results
    ensures results.Results == old(results.Results) + (if results.FailFast then Head(Findings(v)) else Findings(v))
    ensures results.Success == (old(results.Success) && (v.scope.Whole? || Findings(v) == []))
    ensures stop <==> results.FailFast && Findings(v) != []
  {
    var prComments: seq<string> := [];
    match v.comments {
      case Ok(bodies) => prComments := bodies;
      case Err(_) =>
        Add(results, v.scope, CommentsReason, CommentsUnavailable);
        if results.FailFast {
          return true;
        }
    }
    stop := MatchComments(prComments, v.ccomments, v.kind, v.scope, results);
  }

  lemma {:induction false} FindingsBegin(bodies: seq<string>, ccomments: seq<Comment>, i: nat, kind: Kind, scope: Scope)
    requires i <= |ccomments|
    ensures CommentFindings(bodies, ccomments[..i], kind, scope) <= CommentFindings(bodies, ccomments, kind, scope)
  {
    if i < |ccomments| {
      FindingsBegin(bodies, ccomments[..|ccomments| - 1], i, kind, scope);
      assert ccomments[..|ccomments| - 1][..i] == ccomments[..i];
    } else {
      assert ccomments[..i] == ccomments;
    }
  }

  /** `None` when reading the statuses crashes. */
  method ValidateStatuses(v: Validation, results: ValidationResults) returns (stop: Option<bool>)
    requires v.ForRequiredStatuses? && IsEnabled(v)
    modifies results
    ensures stop.None? <==> Breaks(v)
    ensures stop.Some? ==>
              && results.Results == old(results.Results) + (if results.FailFast then Head(Findings(v)) else Findings(v))
              && results.Success == (old(results.Success) && (v.scope.Whole? || Findings(v) == []))
              && (stop.value <==> Findings(v) != [])
  {
    var statuses: seq<Status> := [];
    match v.statuses {
      case None => return None;
      case Some(Ok(found)) => statuses := found;
      case Some(Err(_)) =>
        Add(results, v.scope, StatusesReason, StatusesUnavailable);
        if results.FailFast {
          return Some(true);
        }
    }
    var names := ToString(statuses);
    var unsatisfied := Compare.Complement(names, v.cstatuses);
    if |unsatisfied| > 0 {
      Add(results, v.scope, StatusesReason, StatusesMissing(unsatisfied));
      return Some(true);
    }
    Compare.MissingMeans(names, v.cstatuses);
    assert v.cstatuses[0] in v.cstatuses;
    return Some(false);
  }

  /** Runs one validation if it is enabled; `None` when it crashes. */
  method Validate(v: Validation, results: ValidationResults) returns (r: Option<bool>)
    modifies results
    ensures r.None? <==> Breaks(v)
    ensures r.Some? ==>
              && results.Results == old(results.Results) + (if results.FailFast then Head(Found(v)) else Found(v))
              && results.Success == (old(results.Success) && (v.scope.Whole? || Found(v) == []))
              && (r.value ==> Found(v) != [])
              && (results.FailFast || !v.ForComments? ==> (r.value <==> Found(v) != []))
  {
    if !IsEnabled(v) {
      return Some(false);
    }
    match v {
      case ForAuthors(author, authors, kind, scope) =>
        if author !in authors {
          Add(results, scope, AuthorReason, AuthorNotApproved(kind));
          return Some(true);
        }
        return Some(false);
      case ForLabels(labels, clabels, kind, scope) =>
        var ok := Compare.IsSubSet(clabels, labels);
        Compare.MissingMeans(labels, clabels);
        if !ok {
          Add(results, scope, LabelsReason, LabelsDiffer(kind));
          return Some(true);
        }
        return Some(false);
      case ForComments(_, _, _, _) =>
        var stop := ValidateComments(v, results);
        return Some(stop);
      case ForRequiredStatuses(_, _, _) =>
        r := ValidateStatuses(v, results);
      case ForAge(age, createdAt, now, kind, scope) =>
        if createdAt.None? {
          Add(results, scope, AgeReason, AgeUnknown(kind));
          return Some(true);
        }
        var threshold := now + Negated(age.value);
        if Unix(threshold) <= Unix(createdAt.value) {
          Add(results, scope, AgeReason, TooYoung(kind));
          return Some(true);
        }
        return Some(false);
    }
  }
}
