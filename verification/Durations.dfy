/**
 Durations written as numbers with units (pkg/config/duration.go), for ASCII text.
 Results are nanoseconds in 64-bit arithmetic, which wraps around.
 */
module Durations {
  import opened Results
  import opened Times

  datatype Unit = Second | Minute | Hour | Day | Week | Month

  function Name(u: Unit): string {
    match u
    case Second => "second"
    case Minute => "minute"
    case Hour => "hour"
    case Day => "day"
    case Week => "week"
    case Month => "month"
  }

  predicate IsDigit(c: char) {
    '0' <= c <= '9'
  }

  predicate IsSpace(c: char) {
    c == ' ' || c == '\t' || c == '\n' || c == '\r' || c == '\U{0C}'
  }

  predicate IsS(c: char) {
    c == 's' || c == 'S'
  }

  function Lower(c: char): char {
    if 'A' <= c <= 'Z' then ((c as int) + 32) as char else c
  }

  /** The name stands at `k`, in any case. */
  predicate Stands(s: string, k: nat, name: string) {
    k + |name| <= |s| && forall n | 0 <= n < |name| :: Lower(s[k + n]) == name[n]
  }

  // ---------- the pattern (\d+)\s*(second|minute|hour|day|week|month)s? ----------

  /** At the start of the text there are digits up to `j`, spaces up to `k`, and then
      the unit. */
  ghost predicate Spans(s: string, j: nat, k: nat, u: Unit) {
    && 0 < j <= k <= |s|
    && (forall i | 0 <= i < j :: IsDigit(s[i]))
    && (forall i | j <= i < k :: IsSpace(s[i]))
    && Stands(s, k, Name(u))
  }

  /** One way to match the pattern at the start of a text, up to `e`. */
  ghost predicate Matches(s: string, j: nat, k: nat, u: Unit, e: nat) {
    && Spans(s, j, k, u) && e <= |s|
    && (e == k + |Name(u)| || (e == k + |Name(u)| + 1 && IsS(s[e - 1])))
  }

  /** The end of the digits from `i` on. */
  function DigitRun(s: string, i: nat): (j: nat)
    requires i <= |s|
    ensures i <= j <= |s|
    decreases |s| - i
  {
    if i == |s| || !IsDigit(s[i]) then i else DigitRun(s, i + 1)
  }

  /** The end of the spaces from `j` on. */
  function SpaceRun(s: string, j: nat): (k: nat)
    requires j <= |s|
    ensures j <= k <= |s|
    decreases |s| - j
  {
    if j == |s| || !IsSpace(s[j]) then j else SpaceRun(s, j + 1)
  }

  const ALTERNATIVES := [Second, Minute, Hour, Day, Week, Month]

  /** The first of the alternatives, from number `n` on, that stands at `k`. */
  function FirstUnit(s: string, k: nat, n: nat): (r: Option<Unit>)
    ensures r.Some? ==> Stands(s, k, Name(r.value))
    decreases |ALTERNATIVES| - n
  {
    if n >= |ALTERNATIVES| then None
    else if Stands(s, k, Name(ALTERNATIVES[n])) then Some(ALTERNATIVES[n])
    else FirstUnit(s, k, n + 1)
  }

  datatype Hit = Hit(digits: string, unit: Unit, length: nat)

  /** The end of a match whose unit ends at `e`: a plural s is taken along. */
  function WithPlural(s: string, e: nat): nat {
    if e < |s| && IsS(s[e]) then e + 1 else e
  }

  /** The match whose digits end at `j` and whose spaces end at `k`. */
  function HitFrom(s: string, j: nat, k: nat): (r: Option<Hit>)
    requires 0 < j <= k <= |s|
    ensures r.Some? ==> 0 < r.value.length <= |s|
  {
    match FirstUnit(s, k, 0)
    case None => None
    case Some(u) => Some(Hit(s[..j], u, WithPlural(s, k + |Name(u)|)))
  }

  /** The match at the start of a text that a greedy scan finds. */
  function HitAt(s: string): (r: Option<Hit>)
    ensures r.Some? ==> 0 < r.value.length <= |s|
  {
    var j := DigitRun(s, 0);
    if j == 0 then None else HitFrom(s, j, SpaceRun(s, j))
  }

  /** The hits of a text, from the left, each after the one before. */
  function Hits(s: string): seq<Hit>
    decreases |s|
  {
    if s == [] then []
    else
      match HitAt(s)
      case Some(hit) => [hit] + Hits(s[hit.length..])
      case None => Hits(s[1..])
  }

  lemma OneUnit(s: string, k: nat, u: Unit, v: Unit)
    requires Stands(s, k, Name(u)) && Stands(s, k, Name(v))
    ensures u == v
  {
    assert Lower(s[k + 0]) == Name(u)[0] == Name(v)[0];
    assert Lower(s[k + 1]) == Name(u)[1] == Name(v)[1];
  }

  lemma {:induction false} FirstIsOnly(s: string, k: nat, u: Unit, n: nat)
    requires n <= |ALTERNATIVES| && u in ALTERNATIVES[n..] && Stands(s, k, Name(u))
    ensures FirstUnit(s, k, n) == Some(u)
    decreases |ALTERNATIVES| - n
  {
    if Stands(s, k, Name(ALTERNATIVES[n])) {
      OneUnit(s, k, u, ALTERNATIVES[n]);
    } else {
      FirstIsOnly(s, k, u, n + 1);
    }
  }

  lemma UnitUnique(s: string, k: nat, u: Unit)
    requires Stands(s, k, Name(u))
    ensures FirstUnit(s, k, 0) == Some(u)
  {
    assert ALTERNATIVES[0..] == ALTERNATIVES;
    assert u in ALTERNATIVES;
    FirstIsOnly(s, k, u, 0);
  }

  /** Units start with a letter. */
  lemma UnitLetter(s: string, k: nat, u: Unit)
    requires Stands(s, k, Name(u))
    ensures k < |s| && !IsDigit(s[k]) && !IsSpace(s[k])
  {
    assert Lower(s[k + 0]) == Name(u)[0];
  }

  lemma {:induction false} DigitsEnd(s: string, i: nat, j: nat)
    requires i <= j <= |s| && (forall x | i <= x < j :: IsDigit(s[x])) && (j < |s| ==> !IsDigit(s[j]))
    ensures DigitRun(s, i) == j
    decreases j - i
  {
    if i < j {
      DigitsEnd(s, i + 1, j);
    }
  }

  lemma {:induction false} SpacesEnd(s: string, j: nat, k: nat)
    requires j <= k <= |s| && (forall x | j <= x < k :: IsSpace(s[x])) && (k < |s| ==> !IsSpace(s[k]))
    ensures SpaceRun(s, j) == k
    decreases k - j
  {
    if j < k {
      SpacesEnd(s, j + 1, k);
    }
  }

  lemma {:induction false} RunIsDigits(s: string, i: nat)
    requires i <= |s|
    ensures forall x | i <= x < DigitRun(s, i) :: IsDigit(s[x])
    decreases |s| - i
  {
    if i < |s| {
      RunIsDigits(s, i + 1);
    }
  }

  lemma {:induction false} RunIsSpaces(s: string, j: nat)
    requires j <= |s|
    ensures forall x | j <= x < SpaceRun(s, j) :: IsSpace(s[x])
    decreases |s| - j
  {
    if j < |s| {
      RunIsSpaces(s, j + 1);
    }
  }

  lemma OnlySpans(s: string, j: nat, k: nat, u: Unit)
    requires Spans(s, j, k, u)
    ensures HitAt(s) == Some(Hit(s[..j], u, WithPlural(s, k + |Name(u)|)))
  {
    UnitLetter(s, k, u);
    UnitUnique(s, k, u);
    DigitsEnd(s, 0, j);
    SpacesEnd(s, j, k);
  }

  lemma PluralTaken(s: string, j: nat, k: nat, u: Unit, e: nat)
    requires Matches(s, j, k, u, e)
    ensures Spans(s, j, k, u) && e <= WithPlural(s, k + |Name(u)|)
  {
  }

  /** Backtracking never helps: every way to match the pattern has the digits and
      the unit of the greedy scan, which also takes the most text. */
  lemma GreedyIsOnly(s: string, j: nat, k: nat, u: Unit, e: nat)
    requires Matches(s, j, k, u, e)
    ensures j <= |s| && HitAt(s).Some?
    ensures HitAt(s).value.digits == s[..j] && HitAt(s).value.unit == u && e <= HitAt(s).value.length
  {
    PluralTaken(s, j, k, u, e);
    OnlySpans(s, j, k, u);
  }

  /** What the greedy scan finds is a match. */
  lemma GreedyMatches(s: string)
    requires HitAt(s).Some?
    ensures exists j: nat, k: nat ::
              Matches(s, j, k, HitAt(s).value.unit, HitAt(s).value.length) && HitAt(s).value.digits == s[..j]
  {
    var hit := HitAt(s).value;
    var j := DigitRun(s, 0);
    var k := SpaceRun(s, j);
    RunIsDigits(s, 0);
    RunIsSpaces(s, j);
    assert Matches(s, j, k, hit.unit, hit.length);
  }

  // ---------- 64-bit arithmetic ----------

  const MAX_INT64 := 0x7FFF_FFFF_FFFF_FFFF
  const TWO_TO_THE_64 := 0x1_0000_0000_0000_0000

  /** An integer as it reads in 64 bits. */
  function Wrap64(x: int): int {
    (x + MAX_INT64 + 1) % TWO_TO_THE_64 - MAX_INT64 - 1
  }

  function Add64(a: int, b: int): int {
    Wrap64(a + b)
  }

  function Times64(a: int, b: int): int {
    Wrap64(a * b)
  }

  /** The nanoseconds of a number of units; a month counts as 30 days. */
  function Nanoseconds(value: int, u: Unit): int {
    match u
    case Second => value * SECOND
    case Minute => value * MINUTE
    case Hour => value * HOUR
    case Day => value * 24 * HOUR
    case Week => value * 7 * 24 * HOUR
    case Month => value * 30 * 24 * HOUR
  }

  function ValueOf(digits: string): int {
    if digits == [] then 0
    else 10 * ValueOf(digits[..|digits| - 1]) + (digits[|digits| - 1] as int - '0' as int)
  }

  lemma WrapShift(x: int, k: int)
    ensures Wrap64(x + k * TWO_TO_THE_64) == Wrap64(x)
  {
  }

  /** Wrapping is subtracting a multiple of 2^64. */
  lemma WrapIs(x: int) returns (k: int)
    ensures Wrap64(x) == x + k * TWO_TO_THE_64
  {
    k := -((x + MAX_INT64 + 1) / TWO_TO_THE_64);
  }

  /** What is read differs from the exact number by a multiple of 2^64, and is a signed
      64-bit number. */
  lemma WrapMeans(x: int)
    ensures -9_223_372_036_854_775_808 <= Wrap64(x) <= 9_223_372_036_854_775_807
    ensures (Wrap64(x) - x) % 18_446_744_073_709_551_616 == 0
  {
    var k := WrapIs(x);
    assert (k * TWO_TO_THE_64) % TWO_TO_THE_64 == 0;
  }

  lemma WrapAdd(x: int, y: int)
    ensures Add64(Wrap64(x), Wrap64(y)) == Wrap64(x + y)
  {
    var j := WrapIs(x);
    var k := WrapIs(y);
    WrapShift(x + y, j + k);
  }

  /** Wrapping between the factors makes no difference. */
  lemma WrapDay(x: int)
    ensures Times64(Times64(x, 24), HOUR) == Wrap64(x * 24 * HOUR)
  {
    var k := WrapIs(x * 24);
    WrapShift(x * 24 * HOUR, k * HOUR);
  }

  lemma WrapDays7(x: int)
    ensures Times64(Times64(Times64(x, 7), 24), HOUR) == Wrap64(x * 7 * 24 * HOUR)
  {
    var k := WrapIs(x * 7);
    WrapDay(x * 7 + k * TWO_TO_THE_64);
    WrapShift(x * 7 * 24 * HOUR, k * 24 * HOUR);
  }

  lemma WrapDays30(x: int)
    ensures Times64(Times64(Times64(x, 30), 24), HOUR) == Wrap64(x * 30 * 24 * HOUR)
  {
    var k := WrapIs(x * 30);
    WrapDay(x * 30 + k * TWO_TO_THE_64);
    WrapShift(x * 30 * 24 * HOUR, k * 24 * HOUR);
  }

  lemma WrapExact(x: int)
    ensures Wrap64(x) == x <==> -MAX_INT64 - 1 <= x <= MAX_INT64
  {
  }

  // ---------- parsing ----------

  datatype Error = NoDuration | BadNumber | DecodeError

  /** The exact nanoseconds of the hits. */
  function Sum(hits: seq<Hit>): int {
    if hits == [] then 0
    else Sum(hits[..|hits| - 1]) + Nanoseconds(ValueOf(hits[|hits| - 1].digits), hits[|hits| - 1].unit)
  }

  predicate TooLarge(hit: Hit) {
    ValueOf(hit.digits) > MAX_INT64
  }

  /** What a sequence of hits comes to. */
  function Evaluated(hits: seq<Hit>): Result<int, Error> {
    if hits == [] then Err(NoDuration)
    else if exists h | h in hits :: TooLarge(h) then Err(BadNumber)
    else Ok(Wrap64(Sum(hits)))
  }

  function Parsed(input: string): Result<int, Error> {
    Evaluated(Hits(input))
  }

  /** The product that a unit stands for, factor by factor. */
  method InUnits(value: int, unit: Unit) returns (duration: int)
    ensures duration == Wrap64(Nanoseconds(value, unit))
  {
    match unit {
      case Second => duration := Times64(value, SECOND);
      case Minute => duration := Times64(value, MINUTE);
      case Hour => duration := Times64(value, HOUR);
      case Day =>
        WrapDay(value);
        duration := Times64(Times64(value, 24), HOUR);
      case Week =>
        WrapDays7(value);
        duration := Times64(Times64(Times64(value, 7), 24), HOUR);
      case Month =>
        WrapDays30(value);
        duration := Times64(Times64(Times64(value, 30), 24), HOUR);
    }
  }

  method Evaluate(matches: seq<Hit>) returns (r: Result<int, Error>)
    ensures r == Evaluated(matches)
  {
    if matches == [] {
      return Err(NoDuration);
    }
    var totalDuration := 0;
    for i := 0 to |matches|
      invariant totalDuration == Wrap64(Sum(matches[..i]))
      invariant forall j | 0 <= j < i :: !TooLarge(matches[j])
    {
      var value := ValueOf(matches[i].digits);
      if value > MAX_INT64 {
        assert TooLarge(matches[i]) && matches[i] in matches;
        return Err(BadNumber);
      }
      var duration := InUnits(value, matches[i].unit);
      assert matches[..i + 1][..i] == matches[..i];
      WrapAdd(Sum(matches[..i]), Nanoseconds(value, matches[i].unit));
      totalDuration := Add64(totalDuration, duration);
    }
    assert matches[..|matches|] == matches;
    return Ok(totalDuration);
  }

  method ParseDuration(input: string) returns (r: Result<int, Error>)
    ensures r == Parsed(input)
  {
    r := Evaluate(Hits(input));
  }

  class Duration {
    var Duration: int

    constructor ()
      ensures Duration == 0
    {
      Duration := 0;
    }

    /** The value is `Err` when decoding it failed, and `None` when it is null. */
    method UnmarshalYAML(value: Result<Option<string>, Error>) returns (err: Option<Error>)
      modifies this
      ensures match value
              case Err(e) => err == Some(e) && Duration == old(Duration)
              case Ok(None) => err == None && Duration == old(Duration)
              case Ok(Some(text)) =>
                match Parsed(text)
                case Err(e) => err == Some(e) && Duration == old(Duration)
                case Ok(d) => err == None && Duration == d
    {
      match value {
        case Err(e) => return Some(e);
        case Ok(None) => return None;
        case Ok(Some(text)) =>
          var dt := ParseDuration(text);
          match dt {
            case Err(e) => return Some(e);
            case Ok(d) =>
              Duration := d;
              return None;
          }
      }
    }
  }

  // ---------- which texts are rejected ----------

  /** The pattern matches at the start of the text. */
  ghost predicate Here(s: string) {
    exists j: nat, k: nat, u: Unit, e: nat :: Matches(s, j, k, u, e)
  }

  /** The pattern matches somewhere in the text. */
  ghost predicate Occurs(s: string) {
    exists i :: 0 <= i <= |s| && Here(s[i..])
  }

  lemma HitIffHere(s: string)
    ensures HitAt(s).Some? <==> Here(s)
  {
    if HitAt(s).Some? {
      GreedyMatches(s);
    }
    if j: nat, k: nat, u: Unit, e: nat :| Matches(s, j, k, u, e) {
      GreedyIsOnly(s, j, k, u, e);
    }
  }

  lemma OccursStep(s: string)
    requires s != []
    ensures Occurs(s) <==> Here(s) || Occurs(s[1..])
  {
    assert s[0..] == s;
    if Occurs(s) {
      var i :| 0 <= i <= |s| && Here(s[i..]);
      assert i > 0 ==> s[1..][i - 1..] == s[i..];
    }
    if Occurs(s[1..]) {
      var i :| 0 <= i <= |s[1..]| && Here(s[1..][i..]);
      assert s[i + 1..] == s[1..][i..];
    }
  }

  lemma {:induction false} HitsIffOccurs(s: string)
    ensures Hits(s) != [] <==> Occurs(s)
    decreases |s|
  {
    HitIffHere(s);
    if s != [] {
      OccursStep(s);
      HitsIffOccurs(s[1..]);
    } else {
      assert s[0..] == s;
    }
  }

  /** A text is rejected exactly when the pattern occurs nowhere in it or the number
      of some hit does not fit into 64 bits. */
  lemma RejectedIff(input: string)
    ensures Parsed(input).Err? <==>
            !Occurs(input) || exists h | h in Hits(input) :: ValueOf(h.digits) > 9_223_372_036_854_775_807
  {
    HitsIffOccurs(input);
    assert forall h :: TooLarge(h) <==> ValueOf(h.digits) > 9_223_372_036_854_775_807;
  }

  // ---------- what written terms are read as ----------

  /** A number and a unit as written, and the text up to the next number. */
  datatype Term = Term(digits: string, spaces: string, unit: Unit, letters: string, plural: string, after: string)

  ghost predicate NoDigit(s: string) {
    forall i | 0 <= i < |s| :: !IsDigit(s[i])
  }

  ghost predicate IsTerm(t: Term) {
    && t.digits != [] && (forall i | 0 <= i < |t.digits| :: IsDigit(t.digits[i]))
    && (forall i | 0 <= i < |t.spaces| :: IsSpace(t.spaces[i]))
    && Stands(t.letters, 0, Name(t.unit)) && |t.letters| == |Name(t.unit)|
    && |t.plural| <= 1 && (forall i | 0 <= i < |t.plural| :: IsS(t.plural[i]))
    && NoDigit(t.after)
  }

  ghost predicate AreTerms(terms: seq<Term>) {
    forall i | 0 <= i < |terms| :: IsTerm(terms[i])
  }

  function Render(terms: seq<Term>): string {
    if terms == [] then []
    else
      terms[0].digits +
      (terms[0].spaces + (terms[0].letters + (terms[0].plural + (terms[0].after + Render(terms[1..])))))
  }

  /** The exact nanoseconds of the terms. */
  function SumOf(terms: seq<Term>): int {
    if terms == [] then 0
    else SumOf(terms[..|terms| - 1]) + Nanoseconds(ValueOf(terms[|terms| - 1].digits), terms[|terms| - 1].unit)
  }

  lemma {:induction false} SkipGap(gap: string, x: string)
    requires NoDigit(gap)
    ensures Hits(gap + x) == Hits(x)
  {
    if gap == [] {
      assert gap + x == x;
    } else {
      assert (gap + x)[1..] == gap[1..] + x;
      DigitsEnd(gap + x, 0, 0);
      SkipGap(gap[1..], x);
    }
  }

  /** The text starts with the number and the unit of the term, and goes on with `y`. */
  ghost predicate Shows(s: string, t: Term, y: string) {
    var j, k := |t.digits|, |t.digits| + |t.spaces|;
    Spans(s, j, k, t.unit) && s[..j] == t.digits && s[k + |Name(t.unit)|..] == y
  }

  lemma TermShows(s: string, t: Term, y: string)
    requires IsTerm(t) && s == t.digits + (t.spaces + (t.letters + y))
    ensures Shows(s, t, y)
  {
    var k := |t.digits| + |t.spaces|;
    assert forall n | 0 <= n < |t.letters| :: s[k + n] == t.letters[n] == t.letters[0 + n];
  }

  /** Where the scan stops after a unit: behind an s, written as a plural or not. */
  lemma PluralGap(t: Term, rest: string, s: string, e: nat) returns (gap: string)
    requires IsTerm(t) && (rest != [] ==> IsDigit(rest[0]))
    requires e <= |s| && s[e..] == t.plural + (t.after + rest)
    ensures NoDigit(gap) && s[WithPlural(s, e)..] == gap + rest
  {
    var y := t.plural + (t.after + rest);
    assert e < |s| ==> s[e] == y[0];
    if t.plural != [] {
      gap := t.after;
      assert s[e + 1..] == y[1..] == gap + rest;
    } else if t.after != [] && IsS(t.after[0]) {
      gap := t.after[1..];
      assert s[e + 1..] == y[1..] == gap + rest;
    } else {
      gap := t.after;
      assert y == gap + rest;
      assert t.after == [] ==> y == rest;
    }
  }

  lemma HitIs(s: string, j: nat, k: nat, u: Unit, digits: string, e: nat)
    requires Spans(s, j, k, u) && s[..j] == digits && e == k + |Name(u)|
    ensures HitAt(s) == Some(Hit(digits, u, WithPlural(s, e))) && e <= |s|
  {
    OnlySpans(s, j, k, u);
  }

  lemma ShownHit(s: string, t: Term, y: string, e: nat)
    requires Shows(s, t, y) && e == |t.digits| + |t.spaces| + |Name(t.unit)|
    ensures HitAt(s) == Some(Hit(t.digits, t.unit, WithPlural(s, e))) && e <= |s| && s[e..] == y
  {
    HitIs(s, |t.digits|, |t.digits| + |t.spaces|, t.unit, t.digits, e);
  }

  /** A shown term is read as it was written, and what is left of it has no digit. */
  lemma FirstTerm(s: string, t: Term, rest: string) returns (hit: Hit, gap: string)
    requires IsTerm(t) && (rest != [] ==> IsDigit(rest[0])) && Shows(s, t, t.plural + (t.after + rest))
    ensures HitAt(s) == Some(hit) && hit.digits == t.digits && hit.unit == t.unit
    ensures NoDigit(gap) && hit.length <= |s| && s[hit.length..] == gap + rest
  {
    var e := |t.digits| + |t.spaces| + |Name(t.unit)|;
    ShownHit(s, t, t.plural + (t.after + rest), e);
    hit := Hit(t.digits, t.unit, WithPlural(s, e));
    gap := PluralGap(t, rest, s, e);
  }

  ghost predicate Reads(hits: seq<Hit>, terms: seq<Term>) {
    |hits| == |terms| && forall i | 0 <= i < |terms| ::
      hits[i].digits == terms[i].digits && hits[i].unit == terms[i].unit
  }

  lemma RenderStarts(terms: seq<Term>)
    requires AreTerms(terms)
    ensures Render(terms) != [] ==> IsDigit(Render(terms)[0])
  {
    if terms != [] {
      assert Render(terms)[0] == terms[0].digits[0];
    }
  }

  lemma ReadsCons(hit: Hit, hits: seq<Hit>, terms: seq<Term>)
    requires terms != [] && hit.digits == terms[0].digits && hit.unit == terms[0].unit && Reads(hits, terms[1..])
    ensures Reads([hit] + hits, terms)
  {
    assert forall i | 0 < i < |terms| :: terms[i] == terms[1..][i - 1];
  }

  lemma HitsCons(s: string, hit: Hit)
    requires HitAt(s) == Some(hit)
    ensures Hits(s) == [hit] + Hits(s[hit.length..])
  {
  }

  lemma {:induction false} RenderHits(lead: string, terms: seq<Term>)
    requires NoDigit(lead) && AreTerms(terms)
    ensures Reads(Hits(lead + Render(terms)), terms)
    decreases |terms|
  {
    SkipGap(lead, Render(terms));
    if terms != [] {
      RenderStarts(terms[1..]);
      TermShows(Render(terms), terms[0], terms[0].plural + (terms[0].after + Render(terms[1..])));
      var hit, gap := FirstTerm(Render(terms), terms[0], Render(terms[1..]));
      HitsCons(Render(terms), hit);
      RenderHits(gap, terms[1..]);
      ReadsCons(hit, Hits(gap + Render(terms[1..])), terms);
    }
  }

  lemma {:induction false} SameSum(hits: seq<Hit>, terms: seq<Term>)
    requires Reads(hits, terms)
    ensures Sum(hits) == SumOf(terms)
  {
    if terms != [] {
      SameSum(hits[..|hits| - 1], terms[..|terms| - 1]);
    }
  }

  /** Terms written in any of the allowed ways, with any other text that has no digit
      before, between and after them, are read as the sum of what they stand for, in
      64-bit arithmetic; one number that does not fit rejects them all. */
  lemma RoundTrip(lead: string, terms: seq<Term>)
    requires NoDigit(lead) && terms != [] && AreTerms(terms)
    ensures Parsed(lead + Render(terms)) ==
            if exists t | t in terms :: ValueOf(t.digits) > MAX_INT64 then Err(BadNumber) else Ok(Wrap64(SumOf(terms)))
  {
    var hits := Hits(lead + Render(terms));
    RenderHits(lead, terms);
    SameSum(hits, terms);
    SameNumbers(hits, terms);
  }

  lemma SameNumbers(hits: seq<Hit>, terms: seq<Term>)
    requires Reads(hits, terms)
    ensures (exists h | h in hits :: TooLarge(h)) <==> exists t | t in terms :: ValueOf(t.digits) > MAX_INT64
  {
    if h :| h in hits && TooLarge(h) {
      var i :| 0 <= i < |hits| && hits[i] == h;
      assert terms[i] in terms;
    }
    if t :| t in terms && ValueOf(t.digits) > MAX_INT64 {
      var i :| 0 <= i < |terms| && terms[i] == t;
      assert hits[i] in hits && TooLarge(hits[i]);
    }
  }

  lemma {:induction false} ValuePositive(digits: string)
    requires forall i | 0 <= i < |digits| :: IsDigit(digits[i])
    ensures ValueOf(digits) >= 0
  {
    if digits != [] {
      ValuePositive(digits[..|digits| - 1]);
    }
  }

  lemma AtLeastOne(value: int, u: Unit)
    requires value >= 0
    ensures value <= Nanoseconds(value, u)
  {
  }

  lemma {:induction false} SumBounds(terms: seq<Term>, i: nat)
    requires AreTerms(terms)
    ensures SumOf(terms) >= 0 && (i < |terms| ==> ValueOf(terms[i].digits) <= SumOf(terms))
  {
    if terms != [] {
      var n := |terms| - 1;
      SumBounds(terms[..n], i);
      ValuePositive(terms[n].digits);
      AtLeastOne(ValueOf(terms[n].digits), terms[n].unit);
    }
  }

  /** A sum that fits into 64 bits is read exactly. */
  lemma RoundTripExact(lead: string, terms: seq<Term>)
    requires NoDigit(lead) && terms != [] && AreTerms(terms) && SumOf(terms) <= MAX_INT64
    ensures Parsed(lead + Render(terms)) == Ok(SumOf(terms))
  {
    RoundTrip(lead, terms);
    forall i | 0 <= i < |terms| ensures ValueOf(terms[i].digits) <= MAX_INT64 {
      SumBounds(terms, i);
    }
    SumBounds(terms, 0);
    WrapExact(SumOf(terms));
  }

  /** The digits of a number. */
  function Decimal(n: nat): (s: string)
    ensures s != [] && forall i | 0 <= i < |s| :: IsDigit(s[i])
  {
    var last := [(n % 10 + '0' as int) as char];
    if n < 10 then last else Decimal(n / 10) + last
  }

  lemma {:induction false} DecimalValue(n: nat)
    ensures ValueOf(Decimal(n)) == n
  {
    var s := Decimal(n);
    if n >= 10 {
      DecimalValue(n / 10);
      assert s[..|s| - 1] == Decimal(n / 10);
    } else {
      assert s[..0] == [];
    }
  }

  // ---------- numbers as people write them ----------

  /** This many nanoseconds are `n` of the unit with this name. */
  predicate Amounts(n: nat, name: string, nanoseconds: int) {
    || (name == "second" && nanoseconds == n * 1_000_000_000)
    || (name == "minute" && nanoseconds == n * 60_000_000_000)
    || (name == "hour" && nanoseconds == n * 3_600_000_000_000)
    || (name == "day" && nanoseconds == n * 86_400_000_000_000)
    || (name == "week" && nanoseconds == n * 604_800_000_000_000)
    || (name == "month" && nanoseconds == n * 2_592_000_000_000_000)
  }

  ghost predicate OnlySpaces(s: string) {
    forall i | 0 <= i < |s| :: s[i] in {' ', '\t', '\n', '\r', '\U{0C}'}
  }

  lemma NamedUnit(n: nat, name: string, nanoseconds: int) returns (u: Unit)
    requires Amounts(n, name, nanoseconds)
    ensures Name(u) == name && Nanoseconds(n, u) == nanoseconds
  {
    u := if name == "second" then Second
         else if name == "minute" then Minute
         else if name == "hour" then Hour
         else if name == "day" then Day
         else if name == "week" then Week
         else Month;
  }

  lemma NameStands(u: Unit)
    ensures Stands(Name(u), 0, Name(u))
  {
    assert forall c: char | 'a' <= c <= 'z' :: Lower(c) == c;
  }

  lemma WrittenTerm(n: nat, spaces: string, u: Unit, plural: string)
    requires OnlySpaces(spaces) && plural in {"", "s"}
    ensures IsTerm(Term(Decimal(n), spaces, u, Name(u), plural, []))
  {
    NameStands(u);
    assert |plural| <= 1 && forall i | 0 <= i < |plural| :: plural[i] == 's';
  }

  lemma OneTerm(t: Term)
    requires t.after == []
    ensures [] + Render([t]) == t.digits + (t.spaces + (t.letters + t.plural))
    ensures SumOf([t]) == Nanoseconds(ValueOf(t.digits), t.unit)
  {
    assert [t][1..] == [] && [t][..0] == [] && Render([]) == [];
    assert t.letters + (t.plural + (t.after + [])) == t.letters + t.plural;
  }

  lemma TermRead(t: Term)
    requires IsTerm(t) && t.after == [] && Nanoseconds(ValueOf(t.digits), t.unit) <= MAX_INT64
    ensures Parsed(t.digits + (t.spaces + (t.letters + t.plural))) == Ok(Nanoseconds(ValueOf(t.digits), t.unit))
  {
    OneTerm(t);
    RoundTripExact([], [t]);
  }

  /** A number of units, in the singular or plural, is read as that many nanoseconds. */
  lemma UnitRead(n: nat, spaces: string, name: string, plural: string, nanoseconds: int)
    requires Amounts(n, name, nanoseconds) && OnlySpaces(spaces) && plural in {"", "s"}
    requires nanoseconds <= 9_223_372_036_854_775_807
    ensures Parsed(Decimal(n) + (spaces + (name + plural))) == Ok(nanoseconds)
  {
    var u := NamedUnit(n, name, nanoseconds);
    DecimalValue(n);
    WrittenTerm(n, spaces, u, plural);
    TermRead(Term(Decimal(n), spaces, u, name, plural, []));
  }

  /** The same text but for the case of its letters. */
  ghost predicate SameButCase(s: string, t: string) {
    |s| == |t| && forall i | 0 <= i < |s| :: SameLetter(s[i], t[i])
  }

  predicate SameLetter(c: char, d: char) {
    || c == d
    || ('A' <= c <= 'Z' && d as int == c as int + 32)
    || ('A' <= d <= 'Z' && c as int == d as int + 32)
  }

  lemma SameLetterReads(c: char, d: char)
    requires SameLetter(c, d)
    ensures Lower(c) == Lower(d) && IsDigit(c) == IsDigit(d) && IsSpace(c) == IsSpace(d) && IsS(c) == IsS(d)
    ensures IsDigit(c) ==> c == d
  {
  }

  ghost predicate ReadAlike(s: string, t: string) {
    |s| == |t| && forall i | 0 <= i < |s| ::
      && Lower(s[i]) == Lower(t[i]) && IsDigit(s[i]) == IsDigit(t[i]) && IsSpace(s[i]) == IsSpace(t[i])
      && IsS(s[i]) == IsS(t[i]) && (IsDigit(s[i]) ==> s[i] == t[i])
  }

  lemma {:induction false} DigitRunAlike(s: string, t: string, i: nat)
    requires ReadAlike(s, t) && i <= |s|
    ensures DigitRun(s, i) == DigitRun(t, i) && s[i..DigitRun(s, i)] == t[i..DigitRun(s, i)]
    decreases |s| - i
  {
    if i < |s| && IsDigit(s[i]) {
      DigitRunAlike(s, t, i + 1);
      var j := DigitRun(s, i);
      assert s[i..j] == [s[i]] + s[i + 1..j] && t[i..j] == [t[i]] + t[i + 1..j];
    }
  }

  lemma {:induction false} SpaceRunAlike(s: string, t: string, i: nat)
    requires ReadAlike(s, t) && i <= |s|
    ensures SpaceRun(s, i) == SpaceRun(t, i)
    decreases |s| - i
  {
    if i < |s| && IsSpace(s[i]) {
      SpaceRunAlike(s, t, i + 1);
    }
  }

  lemma StandsAlike(s: string, t: string, k: nat, name: string)
    requires ReadAlike(s, t)
    ensures Stands(s, k, name) <==> Stands(t, k, name)
  {
  }

  lemma {:induction false} FirstUnitAlike(s: string, t: string, k: nat, n: nat)
    requires ReadAlike(s, t)
    ensures FirstUnit(s, k, n) == FirstUnit(t, k, n)
    decreases |ALTERNATIVES| - n
  {
    if n < |ALTERNATIVES| {
      StandsAlike(s, t, k, Name(ALTERNATIVES[n]));
      FirstUnitAlike(s, t, k, n + 1);
    }
  }

  lemma HitAtAlike(s: string, t: string)
    requires ReadAlike(s, t)
    ensures HitAt(s) == HitAt(t)
  {
    DigitRunAlike(s, t, 0);
    var j := DigitRun(s, 0);
    SpaceRunAlike(s, t, j);
    if j > 0 {
      HitFromAlike(s, t, j, SpaceRun(s, j));
    }
  }

  lemma HitFromAlike(s: string, t: string, j: nat, k: nat)
    requires ReadAlike(s, t) && 0 < j <= k <= |s| && s[..j] == t[..j]
    ensures HitFrom(s, j, k) == HitFrom(t, j, k)
  {
    FirstUnitAlike(s, t, k, 0);
    if FirstUnit(s, k, 0).Some? {
      PluralAlike(s, t, k + |Name(FirstUnit(s, k, 0).value)|);
    }
  }

  lemma PluralAlike(s: string, t: string, e: nat)
    requires ReadAlike(s, t)
    ensures WithPlural(s, e) == WithPlural(t, e)
  {
  }

  lemma {:induction false} HitsAlike(s: string, t: string)
    requires ReadAlike(s, t)
    ensures Hits(s) == Hits(t)
    decreases |s|
  {
    if s != [] {
      HitAtAlike(s, t);
      match HitAt(s) {
        case Some(hit) => HitsAlike(s[hit.length..], t[hit.length..]);
        case None => HitsAlike(s[1..], t[1..]);
      }
    }
  }

  /** The case of the letters does not matter. */
  lemma CaseIrrelevant(s: string, t: string)
    requires SameButCase(s, t)
    ensures Parsed(s) == Parsed(t)
  {
    forall i | 0 <= i < |s| {
      SameLetterReads(s[i], t[i]);
    }
    HitsAlike(s, t);
  }
}
