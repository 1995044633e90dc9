/**
 Selecting the branch rules that apply to a head ref (pkg/validator/validators.go,
 MatchedBranchConfig). Strings are sequences of bytes.
 */
module Rules {
  import opened Results

  datatype Comment = Comment(title: string, body: string)

  datatype Rule = Rule(
    prefix: string,
    requiredStatuses: seq<string>,
    authors: seq<string>,
    age: Option<int>,  // nanoseconds
    labels: seq<string>,
    comments: seq<Comment>,
    strict: bool)

  /** A configured rule object; its key is written when rules are matched. */
  class Branch {
    var Key: string
    const rule: Rule

    constructor (rule: Rule)
      ensures this.rule == rule && Key == ""
    {
      this.rule := rule;
      Key := "";
    }
  }

  datatype Include = Include(
    labels: seq<string>,
    authors: seq<string>,
    comments: seq<Comment>,
    branches: map<string, Branch>)

  ghost function RulesOf(include_: Include): map<string, Rule> {
    map k | k in include_.branches :: include_.branches[k].rule
  }

  /** No two keys share a rule object, as after decoding. */
  ghost predicate Distinct(include_: Include) {
    forall j, k | j in include_.branches && k in include_.branches && j != k ::
      include_.branches[j] != include_.branches[k]
  }

  // ---------- the order of keys ----------

  /** The order of `sort.Strings`. */
  predicate Less(a: string, b: string) {
    b != [] && (a == [] || a[0] < b[0] || (a[0] == b[0] && Less(a[1..], b[1..])))
  }

  /** At `i` the first string ends or has the smaller byte, and before they agree. */
  predicate DiffersAt(a: string, b: string, i: nat) {
    i <= |a| && i < |b| && a[..i] == b[..i] && (i == |a| || a[i] < b[i])
  }

  lemma DiffersLater(a: string, b: string, i: nat)
    requires DiffersAt(a, b, i) && i > 0
    ensures a != [] && b != [] && a[0] == b[0] && DiffersAt(a[1..], b[1..], i - 1)
  {
    assert a[..i][0] == a[0] && b[..i][0] == b[0];
    assert a[1..][..i - 1] == a[..i][1..] && b[1..][..i - 1] == b[..i][1..];
  }

  /** It is the lexicographic order by bytes. */
  lemma {:induction false} LessMeans(a: string, b: string)
    ensures Less(a, b) <==> exists i: nat :: DiffersAt(a, b, i)
  {
    forall i: nat | DiffersAt(a, b, i) && i > 0
      ensures a != [] && b != [] && a[0] == b[0] && DiffersAt(a[1..], b[1..], i - 1)
    {
      DiffersLater(a, b, i);
    }
    if a != [] && b != [] && a[0] == b[0] {
      LessMeans(a[1..], b[1..]);
      if i: nat :| DiffersAt(a[1..], b[1..], i) {
        assert a[..i + 1] == [a[0]] + a[1..][..i] && b[..i + 1] == [b[0]] + b[1..][..i];
        assert DiffersAt(a, b, i + 1);
      }
    } else if Less(a, b) {
      assert DiffersAt(a, b, 0);
    }
  }

  lemma {:induction false} LessTotal(a: string, b: string)
    ensures a == b <==> !Less(a, b) && !Less(b, a)
    ensures !(Less(a, b) && Less(b, a))
  {
    if a != [] && b != [] && a[0] == b[0] {
      LessTotal(a[1..], b[1..]);
      assert a == [a[0]] + a[1..] && b == [b[0]] + b[1..];
    }
  }

  lemma {:induction false} LessTransitive(a: string, b: string, c: string)
    requires Less(a, b) && Less(b, c)
    ensures Less(a, c)
  {
    if a != [] && a[0] == b[0] == c[0] {
      LessTransitive(a[1..], b[1..], c[1..]);
    }
  }

  predicate Ascending(keys: seq<string>) {
    forall i, j | 0 <= i < j < |keys| :: Less(keys[i], keys[j])
  }

  function Insert(keys: seq<string>, x: string): seq<string> {
    if keys == [] then [x]
    else if Less(x, keys[0]) then [x] + keys
    else [keys[0]] + Insert(keys[1..], x)
  }

  lemma {:induction false} InsertMeans(keys: seq<string>, x: string)
    requires Ascending(keys) && x !in keys
    ensures Ascending(Insert(keys, x))
    ensures forall s :: s in Insert(keys, x) <==> s in keys || s == x
  {
    if keys != [] {
      LessTotal(x, keys[0]);
      if Less(x, keys[0]) {
        forall j | 1 <= j < |keys| ensures Less(x, keys[j]) {
          LessTransitive(x, keys[0], keys[j]);
        }
      } else {
        InsertMeans(keys[1..], x);
        var rest := Insert(keys[1..], x);
        forall j | 0 <= j < |rest| ensures Less(keys[0], rest[j]) {
          assert rest[j] in keys[1..] || rest[j] == x;
        }
      }
    }
  }

  /** There is only one way to sort a set of keys. */
  lemma {:induction false} AscendingUnique(a: seq<string>, b: seq<string>)
    requires Ascending(a) && Ascending(b) && forall s :: s in a <==> s in b
    ensures a == b
  {
    if a == [] {
      assert forall i | 0 <= i < |b| :: b[i] in b;
    } else {
      assert a[0] in a && a[0] in b;
      var i :| 0 <= i < |b| && b[i] == a[0];
      assert b[0] in b && b[0] in a;
      var j :| 0 <= j < |a| && a[j] == b[0];
      LessTotal(a[0], b[0]);
      assert a[0] == b[0];
      forall s ensures s in a[1..] <==> s in b[1..] {
        if s in a[1..] {
          var m :| 1 <= m < |a| && a[m] == s;
          LessTotal(a[0], a[m]);
          assert s in a;
        }
        if s in b[1..] {
          var m :| 1 <= m < |b| && b[m] == s;
          LessTotal(b[0], b[m]);
          assert s in b;
        }
      }
      AscendingUnique(a[1..], b[1..]);
    }
  }

  ghost function Sorted(keys: set<string>): (r: seq<string>)
    ensures Ascending(r) && forall s :: s in r <==> s in keys
  {
    if keys == {} then []
    else
      var x :| x in keys;
      var rest := Sorted(keys - {x});
      InsertMeans(rest, x);
      Insert(rest, x)
  }

  /** The keys of a map, taken in any order and then sorted. */
  method SortedKeys(keys: set<string>) returns (r: seq<string>)
    ensures r == Sorted(keys)
  {
    r := [];
    var todo := keys;
    while todo != {}
      invariant todo <= keys
      invariant Ascending(r) && forall s :: s in r <==> s in keys && s !in todo
    {
      var x :| x in todo;
      InsertMeans(r, x);
      r := Insert(r, x);
      todo := todo - {x};
    }
    AscendingUnique(r, Sorted(keys));
  }

  // ---------- selection ----------

  predicate Matches(rule: Rule, headRef: string) {
    rule.prefix <= headRef
  }

  /** Progress of the selection loop. */
  datatype Scan = Scan(strict: bool, longest: string, only: Option<string>, found: seq<string>)

  function ScanRule(scan: Scan, key: string, rule: Rule): Scan {
    var strict := scan.strict || rule.strict;
    if strict then
      if |rule.prefix| > |scan.longest| then scan.(strict := true, longest := rule.prefix, only := Some(key))
      else scan.(strict := true)
    else scan.(found := scan.found + [key])
  }

  function ScanKeys(rules: map<string, Rule>, keys: seq<string>, headRef: string): Scan
    requires forall k | k in keys :: k in rules
  {
    if keys == [] then Scan(false, "", None, [])
    else
      var scan, k := ScanKeys(rules, keys[..|keys| - 1], headRef), keys[|keys| - 1];
      if Matches(rules[k], headRef) then ScanRule(scan, k, rules[k]) else scan
  }

  lemma ScanStep(rules: map<string, Rule>, keys: seq<string>, i: nat, headRef: string)
    requires i < |keys| && forall k | k in keys :: k in rules
    ensures ScanKeys(rules, keys[..i + 1], headRef) ==
            var scan := ScanKeys(rules, keys[..i], headRef);
            if Matches(rules[keys[i]], headRef) then ScanRule(scan, keys[i], rules[keys[i]]) else scan
  {
    assert keys[..i + 1][..i] == keys[..i];
  }

  function Outcome(scan: Scan): seq<Option<string>> {
    if scan.strict then [scan.only] else SomeEach(scan.found)
  }

  /** The keys of the selected rules; `None` stands for a nil rule. */
  ghost function Selected(rules: map<string, Rule>, headRef: string): seq<Option<string>> {
    Outcome(ScanKeys(rules, Sorted(rules.Keys), headRef))
  }

  ghost predicate IsRule(include_: Include, key: Option<string>, branch: Option<Branch>) {
    match key
    case None => branch.None?
    case Some(k) => k in include_.branches && branch == Some(include_.branches[k])
  }

  /** The rule objects that the selected keys name. */
  ghost predicate AreRules(include_: Include, keys: seq<Option<string>>, branches: seq<Option<Branch>>) {
    |keys| == |branches| && forall i | 0 <= i < |keys| :: IsRule(include_, keys[i], branches[i])
  }

  ghost predicate HoldsKeys(include_: Include, keys: seq<string>, branches: seq<Branch>) {
    |keys| == |branches| && forall i | 0 <= i < |keys| ::
      keys[i] in include_.branches && include_.branches[keys[i]] == branches[i]
  }

  /** The selection loop over the sorted keys. */
  method ScanBranches(include_: Include, keys: seq<string>, branchName: string)
    returns (strict: bool, onlybranch: Option<Branch>, foundBranches: seq<Branch>)
    requires forall k | k in keys :: k in include_.branches
    requires forall i, j | 0 <= i < j < |keys| :: include_.branches[keys[i]] != include_.branches[keys[j]]
    modifies include_.branches.Values
    ensures forall j | 0 <= j < |keys| :: include_.branches[keys[j]].Key == keys[j]
    ensures var scan := ScanKeys(RulesOf(include_), keys, branchName);
            && strict == scan.strict
            && IsRule(include_, scan.only, onlybranch)
            && HoldsKeys(include_, scan.found, foundBranches)
  {
    ghost var rules := RulesOf(include_);
    ghost var scan := Scan(false, "", None, []);
    var maxKey := "";
    strict, onlybranch, foundBranches := false, None, [];
    for i := 0 to |keys|
      invariant forall j | 0 <= j < i :: include_.branches[keys[j]].Key == keys[j]
      invariant scan == ScanKeys(rules, keys[..i], branchName)
      invariant strict == scan.strict && maxKey == scan.longest
      invariant IsRule(include_, scan.only, onlybranch) && HoldsKeys(include_, scan.found, foundBranches)
    {
      var key := keys[i];
      ScanStep(rules, keys, i, branchName);
      scan := if Matches(rules[key], branchName) then ScanRule(scan, key, rules[key]) else scan;
      var branch := include_.branches[key];
      branch.Key := key;
      if branch.rule.prefix <= branchName {
        strict := strict || branch.rule.strict;
        if strict {
          if |branch.rule.prefix| > |maxKey| {
            onlybranch := Some(branch);
            maxKey := branch.rule.prefix;
          }
        } else {
          foundBranches := foundBranches + [branch];
        }
      }
    }
    assert keys[..|keys|] == keys;
  }

  lemma AscendingDistinct(keys: seq<string>)
    requires Ascending(keys)
    ensures forall i, j | 0 <= i < j < |keys| :: keys[i] != keys[j]
  {
    forall i, j | 0 <= i < j < |keys| ensures keys[i] != keys[j] {
      LessTotal(keys[i], keys[j]);
    }
  }

  /** Returns the selected rules and stores in each rule its key. */
  method MatchedBranchConfig(include_: Include, branchName: string) returns (found: seq<Option<Branch>>)
    requires Distinct(include_)
    modifies include_.branches.Values
    ensures forall k | k in include_.branches :: include_.branches[k].Key == k
    ensures AreRules(include_, Selected(RulesOf(include_), branchName), found)
  {
    var keys := SortedKeys(include_.branches.Keys);
    assert RulesOf(include_).Keys == include_.branches.Keys;
    assert |keys| > 0 ==> keys[0] in include_.branches.Keys;
    if |include_.branches| <= 0 {
      return [];
    }
    AscendingDistinct(keys);
    var strict, onlybranch, foundBranches := ScanBranches(include_, keys, branchName);
    found := if strict then [onlybranch] else SomeEach(foundBranches);
  }

  function SomeEach<T>(xs: seq<T>): (r: seq<Option<T>>)
    ensures |r| == |xs| && forall i | 0 <= i < |xs| :: r[i] == Some(xs[i])
  {
    seq(|xs|, i requires 0 <= i < |xs| => Some(xs[i]))
  }

  // ---------- what is selected ----------

  /** The text begins with these characters. */
  predicate StartsWith(text: string, part: string) {
    |part| <= |text| && forall i | 0 <= i < |part| :: text[i] == part[i]
  }

  lemma PrefixMeans(text: string, part: string)
    ensures part <= text <==> StartsWith(text, part)
  {
  }

  ghost predicate Matching(rules: map<string, Rule>, headRef: string, k: string) {
    k in rules && StartsWith(headRef, rules[k].prefix)
  }

  ghost predicate StrictMatch(rules: map<string, Rule>, headRef: string, k: string) {
    Matching(rules, headRef, k) && rules[k].strict
  }

  ghost predicate HasStrict(rules: map<string, Rule>, headRef: string) {
    exists k :: StrictMatch(rules, headRef, k)
  }

  /** A matching rule at or after some matching strict rule, by key. */
  ghost predicate Candidate(rules: map<string, Rule>, headRef: string, k: string) {
    Matching(rules, headRef, k) && exists f :: StrictMatch(rules, headRef, f) && !Less(k, f)
  }

  /** The matching keys, in order. */
  function MatchingOf(rules: map<string, Rule>, keys: seq<string>, headRef: string): seq<string>
    requires forall k | k in keys :: k in rules
  {
    if keys == [] then []
    else
      var rest, k := MatchingOf(rules, keys[..|keys| - 1], headRef), keys[|keys| - 1];
      if Matches(rules[k], headRef) then rest + [k] else rest
  }

  lemma {:induction false} MatchingOfMeans(rules: map<string, Rule>, keys: seq<string>, headRef: string)
    requires Ascending(keys) && forall k | k in keys :: k in rules
    ensures Ascending(MatchingOf(rules, keys, headRef))
    ensures forall k :: k in MatchingOf(rules, keys, headRef) <==> k in keys && Matches(rules[k], headRef)
  {
    if keys != [] {
      var before := keys[..|keys| - 1];
      MatchingOfMeans(rules, before, headRef);
      var rest := MatchingOf(rules, before, headRef);
      assert forall i | 0 <= i < |rest| :: rest[i] in before;
      assert keys == before + [keys[|keys| - 1]];
    }
  }

  /** The candidates among the keys, in order: they begin with the first strict match. */
  function CandidatesOf(rules: map<string, Rule>, keys: seq<string>, headRef: string): seq<string>
    requires forall k | k in keys :: k in rules
  {
    if keys == [] then []
    else
      var rest, k := CandidatesOf(rules, keys[..|keys| - 1], headRef), keys[|keys| - 1];
      if Matches(rules[k], headRef) && (rest != [] || rules[k].strict) then rest + [k] else rest
  }

  predicate IsStrict(rules: map<string, Rule>, headRef: string, f: string) {
    f in rules && Matches(rules[f], headRef) && rules[f].strict
  }

  ghost predicate StrictAmong(rules: map<string, Rule>, keys: seq<string>, headRef: string) {
    exists f | f in keys :: IsStrict(rules, headRef, f)
  }

  /** `k` is at or after a strict match among the keys. */
  ghost predicate FromStrict(rules: map<string, Rule>, keys: seq<string>, headRef: string, k: string) {
    exists f | f in keys :: IsStrict(rules, headRef, f) && !Less(k, f)
  }

  lemma FromStrictSnoc(rules: map<string, Rule>, before: seq<string>, last: string, headRef: string)
    requires Ascending(before + [last])
    ensures StrictAmong(rules, before + [last], headRef) <==>
            StrictAmong(rules, before, headRef) || IsStrict(rules, headRef, last)
    ensures FromStrict(rules, before + [last], headRef, last) <==> StrictAmong(rules, before + [last], headRef)
    ensures forall k | k in before ::
              FromStrict(rules, before + [last], headRef, k) <==> FromStrict(rules, before, headRef, k)
  {
    var keys := before + [last];
    assert forall k :: k in keys <==> k in before || k == last;
    forall k | k in before ensures Less(k, last) && !Less(last, k) {
      var i :| 0 <= i < |before| && before[i] == k;
      assert keys[i] == k && keys[|before|] == last;
      LessTotal(k, last);
    }
    LessTotal(last, last);
  }

  /** A key is a candidate when it matches at or after a strict match. */
  lemma {:induction false} CandidatesHave(rules: map<string, Rule>, keys: seq<string>, headRef: string, k: string)
    requires Ascending(keys) && forall k | k in keys :: k in rules
    ensures CandidatesOf(rules, keys, headRef) != [] <==> StrictAmong(rules, keys, headRef)
    ensures k in CandidatesOf(rules, keys, headRef) <==>
            k in keys && Matches(rules[k], headRef) && FromStrict(rules, keys, headRef, k)
  {
    if keys != [] {
      var before, last := keys[..|keys| - 1], keys[|keys| - 1];
      assert keys == before + [last];
      CandidatesHave(rules, before, headRef, k);
      FromStrictSnoc(rules, before, last, headRef);
      KeyDiffers(before, last);
    }
  }

  lemma KeyDiffers(before: seq<string>, last: string)
    requires Ascending(before + [last])
    ensures last !in before
  {
    if last in before {
      var i :| 0 <= i < |before| && before[i] == last;
      assert Less((before + [last])[i], (before + [last])[|before|]);
      LessTotal(last, last);
    }
  }

  lemma {:induction false} CandidatesAscend(rules: map<string, Rule>, keys: seq<string>, headRef: string)
    requires Ascending(keys) && forall k | k in keys :: k in rules
    ensures Ascending(CandidatesOf(rules, keys, headRef))
    ensures forall k | k in CandidatesOf(rules, keys, headRef) :: k in keys
  {
    if keys != [] {
      var before, last := keys[..|keys| - 1], keys[|keys| - 1];
      CandidatesAscend(rules, before, headRef);
      var rest := CandidatesOf(rules, before, headRef);
      forall i | 0 <= i < |rest| ensures Less(rest[i], last) {
        assert rest[i] in before;
      }
    }
  }

  lemma CandidatesOfMeans(rules: map<string, Rule>, keys: seq<string>, headRef: string)
    requires Ascending(keys) && forall k | k in keys :: k in rules
    ensures Ascending(CandidatesOf(rules, keys, headRef))
    ensures CandidatesOf(rules, keys, headRef) != [] <==> StrictAmong(rules, keys, headRef)
    ensures forall k :: k in CandidatesOf(rules, keys, headRef) <==>
              k in keys && Matches(rules[k], headRef) && FromStrict(rules, keys, headRef, k)
  {
    CandidatesAscend(rules, keys, headRef);
    CandidatesHave(rules, keys, headRef, "");
    forall k {
      CandidatesHave(rules, keys, headRef, k);
    }
  }

  /** `only` is the first of the candidates with the longest prefix, if that is not empty. */
  ghost predicate IsLongest(rules: map<string, Rule>, candidates: seq<string>, only: Option<string>, longest: string)
    requires forall k | k in candidates :: k in rules
  {
    && (forall i | 0 <= i < |candidates| :: |rules[candidates[i]].prefix| <= |longest|)
    && match only
       case None => longest == ""
       case Some(k) =>
         exists w | 0 <= w < |candidates| ::
           && candidates[w] == k && rules[k].prefix == longest != ""
           && forall i | 0 <= i < w :: |rules[candidates[i]].prefix| < |longest|
  }

  lemma {:induction false} ScanMeans(rules: map<string, Rule>, keys: seq<string>, headRef: string)
    requires forall k | k in keys :: k in rules
    ensures var scan := ScanKeys(rules, keys, headRef);
            var candidates := CandidatesOf(rules, keys, headRef);
            && (scan.strict <==> candidates != [])
            && (!scan.strict ==> scan.found == MatchingOf(rules, keys, headRef))
            && (forall k | k in candidates :: k in rules)
            && IsLongest(rules, candidates, scan.only, scan.longest)
  {
    if keys != [] {
      var before, last := keys[..|keys| - 1], keys[|keys| - 1];
      ScanMeans(rules, before, headRef);
      var rest, scan := CandidatesOf(rules, before, headRef), ScanKeys(rules, before, headRef);
      if Matches(rules[last], headRef) && (rest != [] || rules[last].strict) {
        var candidates, scan' := rest + [last], ScanKeys(rules, keys, headRef);
        if |rules[last].prefix| > |scan.longest| {
          assert candidates[|rest|] == last;
        } else if scan.only.Some? {
          var w :| 0 <= w < |rest| && rest[w] == scan.only.value &&
                   forall i | 0 <= i < w :: |rules[rest[i]].prefix| < |scan.longest|;
          assert candidates[w] == scan.only.value;
        }
      }
    }
  }

  lemma MatchingIs(rules: map<string, Rule>, headRef: string)
    ensures forall k :: Matching(rules, headRef, k) <==> k in rules && Matches(rules[k], headRef)
    ensures forall k :: StrictMatch(rules, headRef, k) <==> IsStrict(rules, headRef, k)
    ensures HasStrict(rules, headRef) <==> StrictAmong(rules, Sorted(rules.Keys), headRef)
  {
    forall k | k in rules ensures Matches(rules[k], headRef) <==> StartsWith(headRef, rules[k].prefix) {
      PrefixMeans(headRef, rules[k].prefix);
    }
    assert forall f :: IsStrict(rules, headRef, f) ==> f in Sorted(rules.Keys);
  }

  /** Without a strict match every matching rule is selected, by ascending key. */
  lemma SelectedAll(rules: map<string, Rule>, headRef: string)
    requires !HasStrict(rules, headRef)
    ensures var keys := MatchingOf(rules, Sorted(rules.Keys), headRef);
            && Selected(rules, headRef) == SomeEach(keys)
            && Ascending(keys)
            && forall k :: k in keys <==> Matching(rules, headRef, k)
  {
    var keys := Sorted(rules.Keys);
    ScanMeans(rules, keys, headRef);
    CandidatesOfMeans(rules, keys, headRef);
    MatchingOfMeans(rules, keys, headRef);
    MatchingIs(rules, headRef);
  }

  /** The first candidate with the longest prefix, against all the others. */
  lemma WinnerMeans(rules: map<string, Rule>, headRef: string, candidates: seq<string>, k: string, longest: string)
    requires Ascending(candidates)
    requires forall i | 0 <= i < |candidates| :: candidates[i] in rules && Matches(rules[candidates[i]], headRef)
    requires IsLongest(rules, candidates, Some(k), longest)
    ensures k in candidates && longest != "" && rules[k].prefix == longest
    ensures forall c | c in candidates && c != k ::
              rules[c].prefix <= rules[k].prefix && (rules[c].prefix == rules[k].prefix ==> Less(k, c))
  {
    var w :| 0 <= w < |candidates| && candidates[w] == k
             && forall i | 0 <= i < w :: |rules[candidates[i]].prefix| < |longest|;
    forall c | c in candidates && c != k
      ensures rules[c].prefix <= rules[k].prefix && (rules[c].prefix == rules[k].prefix ==> Less(k, c))
    {
      var i :| 0 <= i < |candidates| && candidates[i] == c;
      PrefixesNest(rules[c].prefix, rules[k].prefix, headRef);
    }
  }

  lemma PrefixesNest(p: string, q: string, s: string)
    requires p <= s && q <= s && |p| <= |q|
    ensures p <= q
  {
  }

  /** The first by key of the candidates with the longest prefix, of which all their
      prefixes are prefixes; or a nil rule exactly when all their prefixes are empty. */
  ghost predicate IsWinner(rules: map<string, Rule>, headRef: string, only: Option<string>) {
    && (only.None? <==> forall c | Candidate(rules, headRef, c) :: rules[c].prefix == "")
    && (only.Some? ==>
          var w := only.value;
          && Candidate(rules, headRef, w)
          && forall c | Candidate(rules, headRef, c) && c != w ::
               rules[c].prefix <= rules[w].prefix && (rules[c].prefix == rules[w].prefix ==> Less(w, c)))
  }

  lemma WinnerOf(rules: map<string, Rule>, headRef: string, candidates: seq<string>, only: Option<string>,
                 longest: string)
    requires Ascending(candidates) && forall c :: c in candidates <==> Candidate(rules, headRef, c)
    requires (forall c | c in candidates :: c in rules) && IsLongest(rules, candidates, only, longest)
    ensures IsWinner(rules, headRef, only)
  {
    assert forall i | 0 <= i < |candidates| :: candidates[i] in candidates && Candidate(rules, headRef, candidates[i]);
    if only.Some? {
      WinnerMeans(rules, headRef, candidates, only.value, longest);
    } else {
      forall c | c in candidates ensures rules[c].prefix == "" {
        var i :| 0 <= i < |candidates| && candidates[i] == c;
      }
    }
  }

  /** With a strict match exactly the winner is selected. */
  lemma SelectedOne(rules: map<string, Rule>, headRef: string)
    requires HasStrict(rules, headRef)
    ensures |Selected(rules, headRef)| == 1 && IsWinner(rules, headRef, Selected(rules, headRef)[0])
  {
    var keys := Sorted(rules.Keys);
    var scan, candidates := ScanKeys(rules, keys, headRef), CandidatesOf(rules, keys, headRef);
    ScanMeans(rules, keys, headRef);
    CandidatesAscend(rules, keys, headRef);
    CandidatesAre(rules, headRef);
    WinnerOf(rules, headRef, candidates, scan.only, scan.longest);
  }

  lemma CandidatesAre(rules: map<string, Rule>, headRef: string)
    ensures var candidates := CandidatesOf(rules, Sorted(rules.Keys), headRef);
            && (candidates != [] <==> HasStrict(rules, headRef))
            && forall c :: c in candidates <==> Candidate(rules, headRef, c)
  {
    var keys := Sorted(rules.Keys);
    CandidatesOfMeans(rules, keys, headRef);
    MatchingIs(rules, headRef);
    forall c ensures c in CandidatesOf(rules, keys, headRef) <==> Candidate(rules, headRef, c) {
      FromStrictIs(rules, headRef, c);
    }
  }

  lemma FromStrictIs(rules: map<string, Rule>, headRef: string, k: string)
    ensures FromStrict(rules, Sorted(rules.Keys), headRef, k) <==>
            exists f :: StrictMatch(rules, headRef, f) && !Less(k, f)
  {
    MatchingIs(rules, headRef);
    assert forall f :: IsStrict(rules, headRef, f) ==> f in Sorted(rules.Keys);
  }
}
